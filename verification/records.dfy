/** The four stored documents: users, feedback, feedback requests and
    notifications (Server/app/models/). */
module Records {
  import opened Outcomes

  /** Timestamps are abstract: a totally ordered value supplied by the caller. */
  type Timestamp = nat

  datatype Role = Manager | Employee

  /** A user. `password` is kept as an uninterpreted string; `managerEmployeeId` is
      optional and no handler of the model ever sets it. */
  datatype User = User(
    name: string,
    email: string,
    password: string,
    role: Role,
    employeeId: string,
    managerEmployeeId: Option<string>)

  /** The three values the `sentiment` field of a feedback record admits. */
  predicate IsSentiment(s: string) {
    s == "positive" || s == "neutral" || s == "negative"
  }

  /** A comment is a string-to-string dictionary; the routers only ever
      write the keys "employee_id" and "text". */
  type Comment = map<string, string>

  predicate IsComment(c: Comment) {
    c.Keys == {"employee_id", "text"}
  }

  /** The dictionary the comment handler appends. */
  function CommentOf(employeeId: string, text: string): (c: Comment)
    ensures IsComment(c)
    ensures c["employee_id"] == employeeId && c["text"] == text
  {
    map["employee_id" := employeeId, "text" := text]
  }

  /** A feedback record. `sentiment` is kept as the string the store holds,
      so that a value outside the three names can be expressed;
      `WellFormed` says it is one of them. */
  datatype Feedback = Feedback(
    id: nat,
    managerId: string,
    employeeId: string,
    strengths: string,
    improvement: string,
    sentiment: string,
    anonymous: bool,
    tags: seq<string>,
    comments: seq<Comment>,
    createdAt: Timestamp,
    acknowledged: bool)

  /** What the record's declared types promise: a known sentiment and
      comments with exactly the two keys the routers write. */
  predicate WellFormed(fb: Feedback) {
    IsSentiment(fb.sentiment) && forall c :: c in fb.comments ==> IsComment(c)
  }

  /** A feedback record built from the required fields alone. `classTime`
      is the moment the record class was defined: the default `created_at`
      is evaluated once then, not once per record. */
  function NewFeedback(
    id: nat, managerId: string, employeeId: string, strengths: string,
    improvement: string, sentiment: string, classTime: Timestamp): (fb: Feedback)
    requires IsSentiment(sentiment)
    ensures WellFormed(fb)
    ensures !fb.anonymous && !fb.acknowledged
    ensures fb.tags == [] && fb.comments == []
    ensures fb.createdAt == classTime
  {
    Feedback(id, managerId, employeeId, strengths, improvement, sentiment,
             false, [], [], classTime, false)
  }

  datatype FeedbackRequest = FeedbackRequest(
    id: nat,
    employeeId: string,
    managerEmployeeId: string,
    message: string,
    seen: bool,
    createdAt: Timestamp)

  datatype Notification = Notification(
    id: nat,
    employeeId: string,
    message: string,
    seen: bool,
    createdAt: Timestamp)

  /** Sort keys for the `-created_at` orderings. */
  function FeedbackTime(fb: Feedback): nat { fb.createdAt }
  function RequestTime(q: FeedbackRequest): nat { q.createdAt }
  function NotificationTime(n: Notification): nat { n.createdAt }
}
