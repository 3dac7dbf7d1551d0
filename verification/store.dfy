/** The request handlers of the feedback, user and notification routers
    (Server/app/routers/) over one in-memory store. Each awaited store call
    is one atomic step, so every handler is a sequential method (or, when
    it only reads, a function or a read-only method). */
module Workflow {
  import opened Outcomes
  import opened Records
  import opened Schemas
  import opened Sequences
  import opened Queries
  import PdfLayout

  /** The four collections. Record ids come from `nextId`, which stays
      above every id handed out. Notifications are created without an
      explicit `created_at`, so each takes the default evaluated once when
      the notification class was defined: `notificationClassTime`. A store
      is one server process, from an empty notification collection. */
  class Store {
    var users: seq<User>
    var feedbacks: seq<Feedback>
    var requests: seq<FeedbackRequest>
    var notifications: seq<Notification>
    var nextId: nat
    const notificationClassTime: Timestamp

    ghost predicate Valid()
      reads this
    {
      && UniqueEmployeeIds(users)
      && (forall fb :: fb in feedbacks ==> fb.id < nextId && WellFormed(fb))
      && (forall q :: q in requests ==> q.id < nextId)
      && (forall n :: n in notifications ==> n.id < nextId && n.createdAt == notificationClassTime)
    }

    /** A store holding the given users and nothing else. */
    constructor (seedUsers: seq<User>, classTime: Timestamp)
      requires UniqueEmployeeIds(seedUsers)
      ensures Valid()
      ensures users == seedUsers && feedbacks == [] && requests == [] && notifications == []
      ensures notificationClassTime == classTime
    {
      users := seedUsers;
      feedbacks := [];
      requests := [];
      notifications := [];
      nextId := 0;
      notificationClassTime := classTime;
    }

    // ===== users router ======================================================

    /** `create_user`: refused unless some manager exists (the caller is not
        identified), then refused if the id is taken; otherwise the user is
        added as given, without a manager back-reference. */
    method CreateUser(user: UserCreate) returns (r: Outcome<UserOut>)
      requires Valid()
      modifies this
      ensures Valid()
      ensures !HasManager(old(users)) ==>
                r == Forbidden("Only manager can register employees") && unchanged(this)
      ensures HasManager(old(users)) && FindUser(old(users), user.employeeId).Some? ==>
                r == BadRequest("Employee ID already exists") && unchanged(this)
      ensures r.Ok? <==> HasManager(old(users)) && FindUser(old(users), user.employeeId).None?
      ensures r.Ok? ==>
                && users == old(users) + [NewUser(user)]
                && feedbacks == old(feedbacks) && requests == old(requests)
                && notifications == old(notifications) && nextId == old(nextId)
                && r.value == UserOut(user.name, user.email, user.role, user.employeeId)
    {
      var manager := FirstManager(users);
      if manager.None? {
        return Forbidden("Only manager can register employees");
      }
      var existing := FindUser(users, user.employeeId);
      if existing.Some? {
        return BadRequest("Employee ID already exists");
      }
      var newUser := NewUser(user);
      users := users + [newUser];
      r := Ok(UserOutOf(newUser));
    }

    /** `update_user`: unknown id first, then "some manager exists"; the
        name, email, password and role are overwritten and the ids kept. */
    method UpdateUser(employeeId: string, data: UserCreate) returns (r: Outcome<UserOut>)
      requires Valid()
      modifies this
      ensures Valid()
      ensures UserIndex(old(users), employeeId).None? ==>
                r == NotFound("User not found") && unchanged(this)
      ensures UserIndex(old(users), employeeId).Some? && !HasManager(old(users)) ==>
                r == Forbidden("Only manager can update employee") && unchanged(this)
      ensures r.Ok? <==> UserIndex(old(users), employeeId).Some? && HasManager(old(users))
      ensures r.Ok? ==>
                var i := UserIndex(old(users), employeeId).value;
                && |users| == |old(users)|
                && users[i] == old(users)[i].(name := data.name, email := data.email,
                                              password := data.password, role := data.role)
                && users[i].employeeId == employeeId
                && users[i].managerEmployeeId == old(users)[i].managerEmployeeId
                && (forall k :: 0 <= k < |users| && k != i ==> users[k] == old(users)[k])
                && feedbacks == old(feedbacks) && requests == old(requests)
                && notifications == old(notifications) && nextId == old(nextId)
                && r.value == UserOut(data.name, data.email, data.role, employeeId)
    {
      var idx := UserIndex(users, employeeId);
      if idx.None? {
        return NotFound("User not found");
      }
      var manager := FirstManager(users);
      if manager.None? {
        return Forbidden("Only manager can update employee");
      }
      var i := idx.value;
      var updated := users[i].(name := data.name, email := data.email,
                               password := data.password, role := data.role);
      users := users[i := updated];
      r := Ok(UserOutOf(updated));
    }

    /** `delete_user`: removes the one user with that id; feedback,
        requests and notifications that name it stay as they are. */
    method DeleteUser(employeeId: string) returns (r: Outcome<string>)
      requires Valid()
      modifies this
      ensures Valid()
      ensures UserIndex(old(users), employeeId).None? ==>
                r == NotFound("User not found") && unchanged(this)
      ensures UserIndex(old(users), employeeId).Some? && !HasManager(old(users)) ==>
                r == Forbidden("Only manager can delete employee") && unchanged(this)
      ensures r.Ok? <==> UserIndex(old(users), employeeId).Some? && HasManager(old(users))
      ensures r.Ok? ==>
                var i := UserIndex(old(users), employeeId).value;
                && users == old(users)[..i] + old(users)[i + 1..]
                && (forall u :: u in users ==> u.employeeId != employeeId)
                && feedbacks == old(feedbacks) && requests == old(requests)
                && notifications == old(notifications) && nextId == old(nextId)
                && r.value == "Employee " + employeeId + " deleted successfully"
    {
      var idx := UserIndex(users, employeeId);
      if idx.None? {
        return NotFound("User not found");
      }
      var manager := FirstManager(users);
      if manager.None? {
        return Forbidden("Only manager can delete employee");
      }
      var i := idx.value;
      RemoveUserKeepsUnique(users, i);
      users := users[..i] + users[i + 1..];
      r := Ok("Employee " + employeeId + " deleted successfully");
    }

    /** `manager_dashboard`: one row per employee in store order, with that
        employee's feedback count and its split by sentiment. */
    method ManagerDashboard() returns (rows: seq<DashboardRow>)
      requires Valid()
      ensures |rows| == |EmployeesOf(users)|
      ensures forall k :: 0 <= k < |rows| ==> rows[k] == StatsRow(EmployeesOf(users)[k], feedbacks)
      ensures forall k :: 0 <= k < |rows| ==>
                rows[k].feedbackCount == |FeedbackOf(feedbacks, rows[k].employeeId)| &&
                rows[k].positive + rows[k].neutral + rows[k].negative == rows[k].feedbackCount
    {
      var employees := EmployeesOf(users);
      rows := DashboardRows(employees);
      forall k | 0 <= k < |rows|
        ensures rows[k].positive + rows[k].neutral + rows[k].negative == rows[k].feedbackCount
      {
        StatsRowBalanced(employees[k], feedbacks);
      }
    }

    /** The loop of `manager_dashboard`: one row per given employee, in the
        same order. */
    method DashboardRows(employees: seq<User>) returns (rows: seq<DashboardRow>)
      ensures |rows| == |employees|
      ensures forall k :: 0 <= k < |rows| ==> rows[k] == StatsRow(employees[k], feedbacks)
    {
      rows := [];
      for i := 0 to |employees|
        invariant |rows| == i
        invariant forall k :: 0 <= k < i ==> rows[k] == StatsRow(employees[k], feedbacks)
      {
        rows := rows + [StatsRow(employees[i], feedbacks)];
      }
    }

    /** `employee_dashboard`: only for a user with the employee role; the
        timeline is that employee's feedback, newest first, each with its
        manager's name or "Unknown" when no such user exists. */
    method EmployeeDashboard(employeeId: string) returns (r: Outcome<seq<TimelineEntry>>)
      ensures r.Ok? <==> FindUser(users, employeeId).Some? && FindUser(users, employeeId).value.role == Employee
      ensures !r.Ok? ==> r == NotFound("Employee not found")
      ensures r.Ok? ==>
                var sorted := SortNewestFirst(FeedbackOf(feedbacks, employeeId), FeedbackTime);
                |r.value| == |sorted| &&
                forall k :: 0 <= k < |r.value| ==> r.value[k] == TimelineEntryOf(sorted[k], users)
      ensures r.Ok? ==> |r.value| == |FeedbackOf(feedbacks, employeeId)|
      ensures r.Ok? ==> forall i, j :: 0 <= i < j < |r.value| ==> r.value[i].createdAt >= r.value[j].createdAt
      ensures r.Ok? ==> forall k :: 0 <= k < |r.value| ==>
                FindUser(users, r.value[k].managerId).None? ==> r.value[k].managerName == "Unknown"
    {
      var user := FindUser(users, employeeId);
      if user.None? || user.value.role != Employee {
        return NotFound("Employee not found");
      }
      var sorted := SortNewestFirst(FeedbackOf(feedbacks, employeeId), FeedbackTime);
      SortedSameElements(FeedbackOf(feedbacks, employeeId), FeedbackTime);
      var timeline := TimelineOf(sorted);
      NewestFirstPairwise(sorted, FeedbackTime);
      forall i, j | 0 <= i < j < |timeline|
        ensures timeline[i].createdAt >= timeline[j].createdAt
      {
        assert FeedbackTime(sorted[i]) >= FeedbackTime(sorted[j]);
      }
      r := Ok(timeline);
    }

    /** The loop of `employee_dashboard` over the sorted records: one entry
        per record, in the same order. */
    method TimelineOf(fbs: seq<Feedback>) returns (timeline: seq<TimelineEntry>)
      ensures |timeline| == |fbs|
      ensures forall k :: 0 <= k < |fbs| ==> timeline[k] == TimelineEntryOf(fbs[k], users)
    {
      timeline := [];
      for i := 0 to |fbs|
        invariant |timeline| == i
        invariant forall k :: 0 <= k < i ==> timeline[k] == TimelineEntryOf(fbs[k], users)
      {
        timeline := timeline + [TimelineEntryOf(fbs[i], users)];
      }
    }

    // ===== feedback router ===================================================

    /** `create_feedback`. The source reads the manager id as
        `payload.manager_id`, a field the body schema does not declare; the
        model reads the declared `manager_employee_id`. The manager is
        checked first, then the employee; a sentiment outside the three
        names makes building the record fail. On success one feedback and
        one notification to the employee are added. The body's `anonymous`
        is not passed on, so the record keeps the default false. */
    method CreateFeedback(payload: FeedbackCreate, now: Timestamp) returns (r: Outcome<FeedbackOut>)
      requires Valid()
      modifies this
      ensures Valid()
      ensures FindUserWithRole(old(users), payload.managerEmployeeId, Manager).None? ==>
                r == NotFound("Manager not found") && unchanged(this)
      ensures FindUserWithRole(old(users), payload.managerEmployeeId, Manager).Some? &&
              FindUserWithRole(old(users), payload.employeeId, Employee).None? ==>
                r == NotFound("Employee not found") && unchanged(this)
      ensures FindUserWithRole(old(users), payload.managerEmployeeId, Manager).Some? &&
              FindUserWithRole(old(users), payload.employeeId, Employee).Some? &&
              !IsSentiment(payload.sentiment) ==>
                r.ServerError? && unchanged(this)
      ensures r.Ok? <==> FindUserWithRole(old(users), payload.managerEmployeeId, Manager).Some? &&
                         FindUserWithRole(old(users), payload.employeeId, Employee).Some? &&
                         IsSentiment(payload.sentiment)
      ensures r.Ok? ==>
                var mgr := FindUserWithRole(old(users), payload.managerEmployeeId, Manager).value;
                var fb := Feedback(
                  id := old(nextId), managerId := payload.managerEmployeeId, employeeId := payload.employeeId,
                  strengths := payload.strengths, improvement := payload.improvement,
                  sentiment := payload.sentiment, anonymous := false,
                  tags := TagsOrEmpty(payload.tags), comments := [], createdAt := now,
                  acknowledged := false);
                && feedbacks == old(feedbacks) + [fb]
                && (forall f :: f in old(feedbacks) ==> f.id != fb.id)
                && notifications == old(notifications) + [Notification(
                     old(nextId) + 1, payload.employeeId,
                     "You have received new feedback from manager " + mgr.name, false,
                     notificationClassTime)]
                && users == old(users) && requests == old(requests)
                && r.value == FromFeedback(fb, mgr.name, None)
    {
      var mgr := FindUserWithRole(users, payload.managerEmployeeId, Manager);
      if mgr.None? {
        return NotFound("Manager not found");
      }
      var employee := FindUserWithRole(users, payload.employeeId, Employee);
      if employee.None? {
        return NotFound("Employee not found");
      }
      if !IsSentiment(payload.sentiment) {
        return ServerError("sentiment must be one of positive, neutral, negative");
      }
      var fb := Feedback(
        id := nextId, managerId := payload.managerEmployeeId, employeeId := payload.employeeId,
        strengths := payload.strengths, improvement := payload.improvement,
        sentiment := payload.sentiment, anonymous := false,
        tags := TagsOrEmpty(payload.tags), comments := [], createdAt := now,
        acknowledged := false);
      feedbacks := feedbacks + [fb];
      notifications := notifications + [Notification(
        nextId + 1, payload.employeeId,
        "You have received new feedback from manager " + mgr.value.name, false,
        notificationClassTime)];
      nextId := nextId + 2;
      r := Ok(FromFeedback(fb, mgr.value.name, None));
    }

    /** `request_feedback`, in its first registration (the one served): the
        employee is checked first, then the manager; on success one unseen
        request and one notification to the manager are added. */
    method RequestFeedback(payload: FeedbackRequestIn, now: Timestamp) returns (r: Outcome<string>)
      requires Valid()
      modifies this
      ensures Valid()
      ensures FindUserWithRole(old(users), payload.employeeId, Employee).None? ==>
                r == NotFound("Employee not found") && unchanged(this)
      ensures FindUserWithRole(old(users), payload.employeeId, Employee).Some? &&
              FindUserWithRole(old(users), payload.managerEmployeeId, Manager).None? ==>
                r == NotFound("Manager not found") && unchanged(this)
      ensures r.Ok? <==> FindUserWithRole(old(users), payload.employeeId, Employee).Some? &&
                         FindUserWithRole(old(users), payload.managerEmployeeId, Manager).Some?
      ensures r.Ok? ==>
                && requests == old(requests) + [FeedbackRequest(
                     old(nextId), payload.employeeId, payload.managerEmployeeId,
                     payload.message, false, now)]
                && notifications == old(notifications) + [Notification(
                     old(nextId) + 1, payload.managerEmployeeId,
                     "Feedback request from employee " + payload.employeeId, false,
                     notificationClassTime)]
                && users == old(users) && feedbacks == old(feedbacks)
                && r.value == "Feedback request submitted successfully"
    {
      var emp := FindUserWithRole(users, payload.employeeId, Employee);
      if emp.None? {
        return NotFound("Employee not found");
      }
      var mgr := FindUserWithRole(users, payload.managerEmployeeId, Manager);
      if mgr.None? {
        return NotFound("Manager not found");
      }
      requests := requests + [FeedbackRequest(
        nextId, payload.employeeId, payload.managerEmployeeId, payload.message, false, now)];
      notifications := notifications + [Notification(
        nextId + 1, payload.managerEmployeeId,
        "Feedback request from employee " + payload.employeeId, false, notificationClassTime)];
      nextId := nextId + 2;
      r := Ok("Feedback request submitted successfully");
    }

    /** `get_feedback_requests`: only for a manager id; the requests
        addressed to that manager, newest first. */
    function GetFeedbackRequests(managerId: string): (r: Outcome<seq<RequestView>>)
      reads this
      ensures r.Ok? <==> FindUserWithRole(users, managerId, Manager).Some?
      ensures !r.Ok? ==> r == NotFound("Manager not found")
      ensures r.Ok? ==> r.value == RequestsNewestFirst(requests, managerId)
    {
      if FindUserWithRole(users, managerId, Manager).None? then NotFound("Manager not found")
      else Ok(RequestsNewestFirst(requests, managerId))
    }

    /** `mark_feedback_request_seen`: sets `seen` on the one request and
        changes nothing else; marking it again changes nothing. */
    method MarkFeedbackRequestSeen(requestId: nat) returns (r: Outcome<string>)
      requires Valid()
      modifies this
      ensures Valid()
      ensures RequestIndex(old(requests), requestId).None? ==>
                r == NotFound("Feedback request not found") && unchanged(this)
      ensures RequestIndex(old(requests), requestId).Some? ==>
                var i := RequestIndex(old(requests), requestId).value;
                && r == Ok("Feedback request marked as seen")
                && requests == old(requests)[i := old(requests)[i].(seen := true)]
                && users == old(users) && feedbacks == old(feedbacks)
                && notifications == old(notifications) && nextId == old(nextId)
                && (old(requests)[i].seen ==> requests == old(requests))
                && (!old(requests)[i].seen ==>
                      CountUnseen(requests, old(requests)[i].managerEmployeeId)
                        == CountUnseen(old(requests), old(requests)[i].managerEmployeeId) - 1)
    {
      var idx := RequestIndex(requests, requestId);
      if idx.None? {
        return NotFound("Feedback request not found");
      }
      var i := idx.value;
      if !requests[i].seen {
        MarkSeenLowersUnseen(requests, i);
      }
      requests := requests[i := requests[i].(seen := true)];
      r := Ok("Feedback request marked as seen");
    }

    /** `count_unseen_requests`: only for a manager id; the number of that
        manager's requests not yet seen. */
    function CountUnseenRequests(managerId: string): (r: Outcome<nat>)
      reads this
      ensures r.Ok? <==> FindUserWithRole(users, managerId, Manager).Some?
      ensures !r.Ok? ==> r == NotFound("Manager not found")
      ensures r.Ok? ==> r.value == CountUnseen(requests, managerId)
      ensures r.Ok? ==> r.value == |set k: nat | k < |requests| && requests[k].managerEmployeeId == managerId
                                                               && !requests[k].seen|
      ensures r.Ok? ==> (r.value == 0 <==> forall q :: q in requests && q.managerEmployeeId == managerId ==> q.seen)
    {
      if FindUserWithRole(users, managerId, Manager).None? then NotFound("Manager not found")
      else Ok(CountUnseen(requests, managerId))
    }

    /** `get_feedback_history`: every feedback of the employee id, in store
        order, with no check on the id; each entry carries the name of the
        user named as manager (or "Unknown") and its comments rendered. */
    method GetFeedbackHistory(employeeId: string, render: string -> string) returns (out: seq<FeedbackOut>)
      requires Valid()
      ensures |out| == |FeedbackOf(feedbacks, employeeId)|
      ensures forall k :: 0 <= k < |out| ==>
                var fb := FeedbackOf(feedbacks, employeeId)[k];
                WellFormed(fb) && out[k] == HistoryEntry(fb, NameOrUnknown(users, fb.managerId), render)
      ensures forall k :: 0 <= k < |out| ==> out[k].employeeId == employeeId
      ensures forall k :: 0 <= k < |out| ==>
                FindUser(users, out[k].managerId).None? ==> out[k].managerName == "Unknown"
    {
      var fbs := FeedbackOf(feedbacks, employeeId);
      forall k | 0 <= k < |fbs|
        ensures WellFormed(fbs[k]) && fbs[k].employeeId == employeeId
      {
        assert fbs[k] in fbs;
      }
      out := HistoryOf(fbs, render);
    }

    /** The loop of `get_feedback_history`: one answer per record, in the
        same order, named after the user the record names as manager. */
    method HistoryOf(fbs: seq<Feedback>, render: string -> string) returns (out: seq<FeedbackOut>)
      requires forall k :: 0 <= k < |fbs| ==> WellFormed(fbs[k])
      ensures |out| == |fbs|
      ensures forall k :: 0 <= k < |fbs| ==> out[k] == HistoryEntry(fbs[k], NameOrUnknown(users, fbs[k].managerId), render)
    {
      out := [];
      for i := 0 to |fbs|
        invariant |out| == i
        invariant forall k :: 0 <= k < i ==> out[k] == HistoryEntry(fbs[k], NameOrUnknown(users, fbs[k].managerId), render)
      {
        out := out + [HistoryEntry(fbs[i], NameOrUnknown(users, fbs[i].managerId), render)];
      }
    }

    /** `acknowledge`: sets `acknowledged` on the one record, with no check
        on who asks; nothing else changes and a second call is a no-op. */
    method Acknowledge(feedbackId: nat) returns (r: Outcome<string>)
      requires Valid()
      modifies this
      ensures Valid()
      ensures FeedbackIndex(old(feedbacks), feedbackId).None? ==>
                r == NotFound("Feedback not found") && unchanged(this)
      ensures FeedbackIndex(old(feedbacks), feedbackId).Some? ==>
                var i := FeedbackIndex(old(feedbacks), feedbackId).value;
                && r == Ok("Feedback acknowledged")
                && feedbacks == old(feedbacks)[i := old(feedbacks)[i].(acknowledged := true)]
                && users == old(users) && requests == old(requests)
                && notifications == old(notifications) && nextId == old(nextId)
                && (old(feedbacks)[i].acknowledged ==> feedbacks == old(feedbacks))
    {
      var idx := FeedbackIndex(feedbacks, feedbackId);
      if idx.None? {
        return NotFound("Feedback not found");
      }
      var i := idx.value;
      assert feedbacks[i] in feedbacks;
      feedbacks := feedbacks[i := feedbacks[i].(acknowledged := true)];
      r := Ok("Feedback acknowledged");
    }

    /** True when the record's manager is the first manager of the store:
        the ownership test of update and delete, which ignores the caller. */
    predicate OwnedByFirstManager(fb: Feedback)
      reads this
      ensures OwnedByFirstManager(fb) <==>
                exists i :: 0 <= i < |users| && users[i].role == Manager && users[i].employeeId == fb.managerId
                         && forall j :: 0 <= j < i ==> users[j].role != Manager
    {
      FirstManager(users).Some? && fb.managerId == FirstManager(users).value.employeeId
    }

    /** `update_feedback`, with the sentiment checked before it is stored
        (see `Findings`: the source assigns it unchecked). Absent id first,
        then the first-manager ownership test; on success only strengths,
        improvement, sentiment and tags change. */
    method UpdateFeedback(feedbackId: nat, upd: FeedbackCreate) returns (r: Outcome<FeedbackOut>)
      requires Valid()
      modifies this
      ensures Valid()
      ensures FeedbackIndex(old(feedbacks), feedbackId).None? ==>
                r == NotFound("Feedback not found") && unchanged(this)
      ensures FeedbackIndex(old(feedbacks), feedbackId).Some? &&
              !old(OwnedByFirstManager(feedbacks[FeedbackIndex(feedbacks, feedbackId).value])) ==>
                r == Forbidden("Not authorized") && unchanged(this)
      ensures FeedbackIndex(old(feedbacks), feedbackId).Some? &&
              old(OwnedByFirstManager(feedbacks[FeedbackIndex(feedbacks, feedbackId).value])) &&
              !IsSentiment(upd.sentiment) ==>
                r.ServerError? && unchanged(this)
      ensures r.Ok? <==> FeedbackIndex(old(feedbacks), feedbackId).Some? &&
                         old(OwnedByFirstManager(feedbacks[FeedbackIndex(feedbacks, feedbackId).value])) &&
                         IsSentiment(upd.sentiment)
      ensures r.Ok? ==>
                var i := FeedbackIndex(old(feedbacks), feedbackId).value;
                && feedbacks == old(feedbacks)[i := OverwriteContent(old(feedbacks)[i], upd)]
                && users == old(users) && requests == old(requests)
                && notifications == old(notifications) && nextId == old(nextId)
                && r.value == FromFeedback(feedbacks[i], FirstManager(users).value.name, None)
    {
      var idx := FeedbackIndex(feedbacks, feedbackId);
      if idx.None? {
        return NotFound("Feedback not found");
      }
      var i := idx.value;
      var mgr := FirstManager(users);
      if mgr.None? || feedbacks[i].managerId != mgr.value.employeeId {
        return Forbidden("Not authorized");
      }
      if !IsSentiment(upd.sentiment) {
        return ServerError("sentiment must be one of positive, neutral, negative");
      }
      assert feedbacks[i] in feedbacks;
      var updated := OverwriteContent(feedbacks[i], upd);
      feedbacks := feedbacks[i := updated];
      r := Ok(FromFeedback(updated, mgr.value.name, None));
    }

    /** `delete_feedback`: absent id first; with no manager at all the
        ownership test dereferences nothing and the handler fails; otherwise
        only the first manager's records may be removed. */
    method DeleteFeedback(feedbackId: nat) returns (r: Outcome<string>)
      requires Valid()
      modifies this
      ensures Valid()
      ensures FeedbackIndex(old(feedbacks), feedbackId).None? ==>
                r == NotFound("Feedback not found") && unchanged(this)
      ensures FeedbackIndex(old(feedbacks), feedbackId).Some? && !HasManager(old(users)) ==>
                r.ServerError? && unchanged(this)
      ensures FeedbackIndex(old(feedbacks), feedbackId).Some? && HasManager(old(users)) &&
              !old(OwnedByFirstManager(feedbacks[FeedbackIndex(feedbacks, feedbackId).value])) ==>
                r == Forbidden("Not authorized") && unchanged(this)
      ensures r.Ok? <==> FeedbackIndex(old(feedbacks), feedbackId).Some? &&
                         old(OwnedByFirstManager(feedbacks[FeedbackIndex(feedbacks, feedbackId).value]))
      ensures r.Ok? ==>
                var i := FeedbackIndex(old(feedbacks), feedbackId).value;
                && feedbacks == old(feedbacks)[..i] + old(feedbacks)[i + 1..]
                && users == old(users) && requests == old(requests)
                && notifications == old(notifications) && nextId == old(nextId)
                && r.value == "Deleted"
    {
      var idx := FeedbackIndex(feedbacks, feedbackId);
      if idx.None? {
        return NotFound("Feedback not found");
      }
      var i := idx.value;
      var mgr := FirstManager(users);
      if mgr.None? {
        return ServerError("'NoneType' object has no attribute 'employee_id'");
      }
      if feedbacks[i].managerId != mgr.value.employeeId {
        return Forbidden("Not authorized");
      }
      ghost var before := feedbacks;
      feedbacks := feedbacks[..i] + feedbacks[i + 1..];
      assert forall fb :: fb in feedbacks ==> fb in before;
      r := Ok("Deleted");
    }

    /** `delete_all`: only for a manager id; removes every record of that
        manager, keeps every other record in order, and reports how many
        were removed. */
    method DeleteAll(managerId: string) returns (r: Outcome<nat>)
      requires Valid()
      modifies this
      ensures Valid()
      ensures FindUserWithRole(old(users), managerId, Manager).None? ==>
                r == Forbidden("Not authorized") && unchanged(this)
      ensures FindUserWithRole(old(users), managerId, Manager).Some? ==>
                && feedbacks == WithoutManager(old(feedbacks), managerId)
                && r == Ok(|FeedbackBy(old(feedbacks), managerId)|)
                && r.value == |old(feedbacks)| - |feedbacks|
                && FeedbackBy(feedbacks, managerId) == []
                && users == old(users) && requests == old(requests)
                && notifications == old(notifications) && nextId == old(nextId)
    {
      var mgr := FindUserWithRole(users, managerId, Manager);
      if mgr.None? {
        return Forbidden("Not authorized");
      }
      var deleted := |FeedbackBy(feedbacks, managerId)|;
      DeleteByManagerCounts(feedbacks, managerId);
      feedbacks := WithoutManager(feedbacks, managerId);
      r := Ok(deleted);
    }

    /** `comment`: absent feedback first, then the commenter must be a user
        with the employee role; the comment is appended after the existing
        ones, which keep their order. */
    method AddComment(feedbackId: nat, c: CommentIn) returns (r: Outcome<string>)
      requires Valid()
      modifies this
      ensures Valid()
      ensures FeedbackIndex(old(feedbacks), feedbackId).None? ==>
                r == NotFound("Feedback not found") && unchanged(this)
      ensures FeedbackIndex(old(feedbacks), feedbackId).Some? &&
              (FindUser(old(users), c.employeeId).None? || FindUser(old(users), c.employeeId).value.role != Employee) ==>
                r == Forbidden("Not authorized") && unchanged(this)
      ensures r.Ok? <==> FeedbackIndex(old(feedbacks), feedbackId).Some? &&
                         FindUser(old(users), c.employeeId).Some? &&
                         FindUser(old(users), c.employeeId).value.role == Employee
      ensures r.Ok? ==>
                var i := FeedbackIndex(old(feedbacks), feedbackId).value;
                && feedbacks == old(feedbacks)[i := WithComment(old(feedbacks)[i], c)]
                && |feedbacks[i].comments| == |old(feedbacks)[i].comments| + 1
                && feedbacks[i].comments[..|old(feedbacks)[i].comments|] == old(feedbacks)[i].comments
                && users == old(users) && requests == old(requests)
                && notifications == old(notifications) && nextId == old(nextId)
                && r.value == "Comment added"
    {
      var idx := FeedbackIndex(feedbacks, feedbackId);
      if idx.None? {
        return NotFound("Feedback not found");
      }
      var emp := FindUser(users, c.employeeId);
      if emp.None? || emp.value.role != Employee {
        return Forbidden("Not authorized");
      }
      var i := idx.value;
      assert feedbacks[i] in feedbacks;
      var updated := WithComment(feedbacks[i], c);
      assert forall x :: x in updated.comments ==> x in feedbacks[i].comments || x == CommentOf(c.employeeId, c.text);
      feedbacks := feedbacks[i := updated];
      r := Ok("Comment added");
    }

    /** The line cursor of `export_pdf`: one record line per feedback of the
        employee, in store order, each at the y the cursor gives; returns
        the y of every record line and the number of page breaks. */
    method ExportPdf(employeeId: string) returns (ys: seq<int>, pageBreaks: nat)
      ensures |ys| == |FeedbackOf(feedbacks, employeeId)|
      ensures forall k :: 0 <= k < |ys| ==> ys[k] == PdfLayout.LineY(k)
      ensures forall k :: 0 <= k < |ys| ==> 50 <= ys[k] <= 800
      ensures pageBreaks == PdfLayout.PageBreaks(|ys|)
    {
      var fbs := FeedbackOf(feedbacks, employeeId);
      var y := PdfLayout.FirstLineY;
      ys := [];
      pageBreaks := 0;
      for i := 0 to |fbs|
        invariant |ys| == i
        invariant y == PdfLayout.LineY(i)
        invariant pageBreaks == PdfLayout.PageBreaks(i)
        invariant forall k :: 0 <= k < i ==> ys[k] == PdfLayout.LineY(k) && 50 <= ys[k] <= 800
      {
        PdfLayout.LineYInBand(i);
        ys := ys + [y];
        y := y - PdfLayout.LineStep;
        if y < PdfLayout.BottomMargin {
          pageBreaks := pageBreaks + 1;
          y := PdfLayout.PageTopY;
        }
      }
    }

    /** `get_manager_feedback_history`: only for a manager id; every record
        of that manager in store order, each with the manager's own name
        and its comments rendered. */
    method GetManagerFeedbackHistory(managerId: string, render: string -> string) returns (r: Outcome<seq<FeedbackOut>>)
      requires Valid()
      ensures r.Ok? <==> FindUserWithRole(users, managerId, Manager).Some?
      ensures !r.Ok? ==> r == NotFound("Manager not found")
      ensures r.Ok? ==>
                var mgr := FindUserWithRole(users, managerId, Manager).value;
                var fbs := FeedbackBy(feedbacks, managerId);
                && |r.value| == |fbs|
                && forall k :: 0 <= k < |fbs| ==>
                     WellFormed(fbs[k]) && r.value[k] == HistoryEntry(fbs[k], mgr.name, render)
      ensures r.Ok? ==> forall k :: 0 <= k < |r.value| ==>
                r.value[k].managerId == managerId && r.value[k].managerName == FindUserWithRole(users, managerId, Manager).value.name
    {
      var mgr := FindUserWithRole(users, managerId, Manager);
      if mgr.None? {
        return NotFound("Manager not found");
      }
      var fbs := FeedbackBy(feedbacks, managerId);
      forall k | 0 <= k < |fbs|
        ensures WellFormed(fbs[k]) && fbs[k].managerId == managerId
      {
        assert fbs[k] in fbs;
      }
      var out := [];
      for i := 0 to |fbs|
        invariant |out| == i
        invariant forall k :: 0 <= k < i ==> out[k] == HistoryEntry(fbs[k], mgr.value.name, render)
      {
        out := out + [HistoryEntry(fbs[i], mgr.value.name, render)];
      }
      r := Ok(out);
    }

    // ===== notification router ===============================================

    /** `get_notifications`: exactly the notifications addressed to the id,
        newest first. */
    function GetNotifications(employeeId: string): (r: seq<Notification>)
      reads this
      ensures |r| == |NotificationsOf(notifications, employeeId)|
      ensures forall n :: n in r <==> n in notifications && n.employeeId == employeeId
      ensures forall i, j :: 0 <= i < j < |r| ==> r[i].createdAt >= r[j].createdAt
    {
      var sorted := SortNewestFirst(NotificationsOf(notifications, employeeId), NotificationTime);
      SortedSameElements(NotificationsOf(notifications, employeeId), NotificationTime);
      NewestFirstPairwise(sorted, NotificationTime);
      sorted
    }

    /** Within one server process every notification carries the
        class-definition default timestamp, so "newest first" is no order at
        all: the answer comes in store order. */
    lemma NotificationsInStoreOrder(employeeId: string)
      requires Valid()
      ensures GetNotifications(employeeId) == NotificationsOf(notifications, employeeId)
    {
      var mine := NotificationsOf(notifications, employeeId);
      forall k | 0 <= k < |mine|
        ensures NotificationTime(mine[k]) == notificationClassTime
      {
        assert mine[k] in mine;
      }
      SameKeyKeepsOrder(mine, NotificationTime, notificationClassTime);
    }

    /** `mark_seen`: sets `seen` on the one notification to the value given,
        which may be false; nothing else changes. */
    method MarkSeen(notificationId: nat, seen: bool) returns (r: Outcome<string>)
      requires Valid()
      modifies this
      ensures Valid()
      ensures NotificationIndex(old(notifications), notificationId).None? ==>
                r == NotFound("Notification not found.") && unchanged(this)
      ensures NotificationIndex(old(notifications), notificationId).Some? ==>
                var i := NotificationIndex(old(notifications), notificationId).value;
                && r == Ok("Notification updated.")
                && notifications == old(notifications)[i := old(notifications)[i].(seen := seen)]
                && notifications[i].seen == seen
                && users == old(users) && feedbacks == old(feedbacks)
                && requests == old(requests) && nextId == old(nextId)
    {
      var idx := NotificationIndex(notifications, notificationId);
      if idx.None? {
        return NotFound("Notification not found.");
      }
      var i := idx.value;
      assert notifications[i] in notifications;
      notifications := notifications[i := notifications[i].(seen := seen)];
      r := Ok("Notification updated.");
    }

    /** `mark_all_seen`: every notification of the id becomes seen, every
        other one is untouched; it never fails, even with no notification. */
    method MarkAllSeen(employeeId: string) returns (r: Outcome<string>)
      requires Valid()
      modifies this
      ensures Valid()
      ensures r == Ok("All notifications marked as seen.")
      ensures notifications == MarkAllSeenFor(old(notifications), employeeId)
      ensures forall n :: n in notifications && n.employeeId == employeeId ==> n.seen
      ensures users == old(users) && feedbacks == old(feedbacks)
      ensures requests == old(requests) && nextId == old(nextId)
    {
      ghost var before := notifications;
      notifications := MarkAllSeenFor(notifications, employeeId);
      forall n | n in notifications
        ensures n.id < nextId && n.createdAt == notificationClassTime
      {
        var k :| 0 <= k < |notifications| && notifications[k] == n;
        assert before[k] in before;
      }
      r := Ok("All notifications marked as seen.");
    }
  }
}
