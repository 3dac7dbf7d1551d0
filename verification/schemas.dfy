/** Request bodies and answer shapes (Server/app/schemas/). */
module Schemas {
  import opened Outcomes
  import opened Records

  /** The body of the create and update feedback routes. `sentiment` is a
      free string here; only the stored record restricts it. `anonymous`
      and `tags` are optional: absent means the default, an explicit null
      is `None`. */
  datatype FeedbackCreate = FeedbackCreate(
    managerEmployeeId: string,
    employeeId: string,
    strengths: string,
    improvement: string,
    sentiment: string,
    anonymous: Option<bool>,
    tags: Option<seq<string>>)

  /** A body that leaves out the optional fields. */
  function FeedbackCreateWithDefaults(
    managerEmployeeId: string, employeeId: string, strengths: string,
    improvement: string, sentiment: string): (p: FeedbackCreate)
    ensures p.anonymous == Some(false) && p.tags == Some([])
    ensures p.managerEmployeeId == managerEmployeeId && p.employeeId == employeeId
    ensures p.strengths == strengths && p.improvement == improvement && p.sentiment == sentiment
  {
    FeedbackCreate(managerEmployeeId, employeeId, strengths, improvement, sentiment, Some(false), Some([]))
  }

  /** `payload.tags or []`: a null or empty list becomes the empty list,
      any other list is kept. */
  function TagsOrEmpty(tags: Option<seq<string>>): (r: seq<string>)
    ensures tags.Some? ==> r == tags.value
    ensures tags.None? ==> r == []
  {
    match tags
    case None => []
    case Some(t) => t
  }

  datatype CommentIn = CommentIn(employeeId: string, text: string)

  datatype FeedbackRequestIn = FeedbackRequestIn(
    employeeId: string,
    managerEmployeeId: string,
    message: string)

  /** The body of the create and update user routes; it has no manager
      back-reference. */
  datatype UserCreate = UserCreate(
    name: string,
    email: string,
    password: string,
    role: Role,
    employeeId: string)

  datatype UserOut = UserOut(name: string, email: string, role: Role, employeeId: string)

  /** `User(**user.dict())`: every field of the body, and no manager. */
  function NewUser(u: UserCreate): (r: User)
    ensures r.name == u.name && r.email == u.email && r.password == u.password
    ensures r.role == u.role && r.employeeId == u.employeeId
    ensures r.managerEmployeeId == None
  {
    User(u.name, u.email, u.password, u.role, u.employeeId, None)
  }

  /** The user answer: the stored user without its password and manager. */
  function UserOutOf(u: User): (r: UserOut)
    ensures r.name == u.name && r.email == u.email && r.role == u.role && r.employeeId == u.employeeId
  {
    UserOut(u.name, u.email, u.role, u.employeeId)
  }

  /** The feedback answer: the stored record plus the manager's display
      name. */
  datatype FeedbackOut = FeedbackOut(
    id: nat,
    managerId: string,
    managerName: string,
    employeeId: string,
    strengths: string,
    improvement: string,
    sentiment: string,
    anonymous: bool,
    tags: seq<string>,
    comments: seq<Comment>,
    acknowledged: bool,
    createdAt: Timestamp)

  /** `FeedbackOut.from_feedback`: every stored field is copied, the
      manager's name is the argument, and the comments are the rendered
      list whenever one is given (even an empty one), else the stored
      ones. */
  function FromFeedback(fb: Feedback, managerName: string, commentsHtml: Option<seq<Comment>>): (out: FeedbackOut)
    ensures out.id == fb.id && out.managerId == fb.managerId && out.employeeId == fb.employeeId
    ensures out.strengths == fb.strengths && out.improvement == fb.improvement
    ensures out.sentiment == fb.sentiment && out.anonymous == fb.anonymous && out.tags == fb.tags
    ensures out.acknowledged == fb.acknowledged && out.createdAt == fb.createdAt
    ensures out.managerName == managerName
    ensures commentsHtml.Some? ==> out.comments == commentsHtml.value
    ensures commentsHtml.None? ==> out.comments == fb.comments
  {
    FeedbackOut(
      id := fb.id,
      managerId := fb.managerId,
      managerName := managerName,
      employeeId := fb.employeeId,
      strengths := fb.strengths,
      improvement := fb.improvement,
      sentiment := fb.sentiment,
      anonymous := fb.anonymous,
      tags := fb.tags,
      comments := if commentsHtml.Some? then commentsHtml.value else fb.comments,
      acknowledged := fb.acknowledged,
      createdAt := fb.createdAt)
  }
}
