/**
 * The request shaping of the Canvas API client and the derived
 * remove-user-by-id operation. Sending a request is not modelled: what an
 * endpoint answers is a parameter (an oracle), and the requests an operation
 * issues are returned as a ghost log.
 */
module Api {
  import opened Wrappers
  import Strconv
  import opened Models

  /** The errors the client returns. */
  datatype Error =
      /** Any failure of a request: transport, a status of 400 or more, an unreadable or undecodable body. */
    | RequestFailed(message: string)
    | FetchingEnrollments(cause: Error)
    | InvalidUserId(userId: string)
    | RemovingEnrollment(cause: Error)
    | NoEnrollmentFound(userId: string, courseId: string)

  /** url.Values: each key maps to the list of its values, in the order they were added. */
  type Values = map<string, seq<string>>

  /** url.Values.Add: appends `value` to the values of `key`. */
  function Add(query: Values, key: string, value: string): (r: Values)
    ensures r.Keys == query.Keys + {key}
    ensures r[key] == (if key in query then query[key] else []) + [value]
    ensures forall k :: k in query && k != key ==> r[k] == query[k]
  {
    query[key := (if key in query then query[key] else []) + [value]]
  }

  /** A request as handed to Client.Request: method, path below the base URL, query. */
  datatype Request = Request(verb: string, path: string, query: Values)

  /** The JSON body of an enrollment creation, with its omitempty fields. */
  datatype EnrollmentRequest = EnrollmentRequest(
    userId: string,
    enrollmentType: string,
    enrollmentState: string,
    courseSection: string,
    limitPrivileges: bool,
    notify: bool)

  /** A request with a JSON body, as handed to Client.RequestWithBody. */
  datatype BodyRequest = BodyRequest(verb: string, path: string, query: Values, body: map<string, EnrollmentRequest>)

  /** strings.Split(s, "/"): the pieces between slashes, one more than there are slashes. */
  function Split(s: string): (parts: seq<string>)
    ensures |parts| >= 1
  {
    if s == [] then [""]
    else
      var rest := Split(s[1..]);
      if s[0] == '/' then [""] + rest else [[s[0]] + rest[0]] + rest[1..]
  }

  lemma {:induction false} SplitNoSlash(a: string)
    requires '/' !in a
    ensures Split(a) == [a]
  {
    if a != [] {
      SplitNoSlash(a[1..]);
      assert [a[0]] + a[1..] == a;
    }
  }

  /** The path `p` extended by one segment, as each "/%s" of a path format appends one. */
  function Slash(p: string, segment: string): string {
    p + "/" + segment
  }

  /** Appending a slash-free segment to a path adds exactly that segment to its pieces. */
  lemma {:induction false} SplitSlash(p: string, segment: string)
    requires '/' !in segment
    ensures Split(Slash(p, segment)) == Split(p) + [segment]
  {
    var s := Slash(p, segment);
    if p == [] {
      assert s == "/" + segment && s[1..] == segment;
      SplitNoSlash(segment);
    } else {
      assert s[0] == p[0] && s[1..] == Slash(p[1..], segment);
      SplitSlash(p[1..], segment);
      assert [p[0]] + p[1..] == p;
    }
  }

  /** The course prefix of the course paths splits into "", "courses" and the course ID. */
  lemma CoursePathSegments(courseId: string)
    requires '/' !in courseId
    ensures Split(Slash(Slash("", "courses"), courseId)) == ["", "courses", courseId]
  {
    SplitSlash("", "courses");
    assert Split(Slash("", "courses")) == ["", "courses"];
    SplitSlash(Slash("", "courses"), courseId);
  }

  /** "/courses/{courseId}/users" */
  function UsersPath(courseId: string): string {
    Slash(Slash(Slash("", "courses"), courseId), "users")
  }

  /** "/courses/{courseId}/enrollments" */
  function EnrollmentsPath(courseId: string): string {
    Slash(Slash(Slash("", "courses"), courseId), "enrollments")
  }

  /** "/courses/{courseId}/enrollments/{enrollmentId}" */
  function EnrollmentPath(courseId: string, enrollmentId: string): string {
    Slash(EnrollmentsPath(courseId), enrollmentId)
  }

  /** "/users/{userId}" */
  function UserPath(userId: string): string {
    Slash(Slash("", "users"), userId)
  }

  /** Each path is the text its format string prints. */
  lemma UsersPathText(courseId: string)
    ensures UsersPath(courseId) == "/courses/" + courseId + "/users"
  {
  }

  lemma EnrollmentsPathText(courseId: string)
    ensures EnrollmentsPath(courseId) == "/courses/" + courseId + "/enrollments"
  {
  }

  lemma EnrollmentPathText(courseId: string, enrollmentId: string)
    ensures EnrollmentPath(courseId, enrollmentId) == "/courses/" + courseId + "/enrollments/" + enrollmentId
  {
  }

  lemma UserPathText(userId: string)
    ensures UserPath(userId) == "/users/" + userId
  {
  }

  /** Client.GetUsers: the request for one page of a course's users. */
  method GetUsersRequest(courseId: string, page: int, perPage: int) returns (req: Request)
    ensures req.verb == "GET" && req.path == UsersPath(courseId)
    ensures req.query.Keys == {"include[]", "per_page"} + (if page > 0 then {"page"} else {})
    ensures req.query["include[]"] == ["email"]
    ensures page > 0 ==> req.query["page"] == [Strconv.Itoa(page)]
    ensures req.query["per_page"] == [if perPage > 0 then Strconv.Itoa(perPage) else "50"]
  {
    var query: Values := map[];
    query := Add(query, "include[]", "email");
    if page > 0 {
      query := Add(query, "page", Strconv.Itoa(page));
    }
    if perPage > 0 {
      query := Add(query, "per_page", Strconv.Itoa(perPage));
    } else {
      query := Add(query, "per_page", "50");
    }
    req := Request("GET", UsersPath(courseId), query);
  }

  /** The path of GetUsers names the course as its third segment. */
  lemma UsersPathSegments(courseId: string)
    requires '/' !in courseId
    ensures Split(UsersPath(courseId)) == ["", "courses", courseId, "users"]
  {
    CoursePathSegments(courseId);
    SplitSlash(Slash(Slash("", "courses"), courseId), "users");
  }

  /** Client.GetUserDetails: the request for one user, with the email included. */
  function UserDetailsRequest(userId: string): (req: Request)
    ensures req.verb == "GET" && req.query.Keys == {"include[]"} && req.query["include[]"] == ["email"]
  {
    Request("GET", UserPath(userId), Add(map[], "include[]", "email"))
  }

  /** The path of GetUserDetails names the user as its third segment. */
  lemma UserDetailsPathSegments(userId: string)
    requires '/' !in userId
    ensures Split(UserDetailsRequest(userId).path) == ["", "users", userId]
  {
    SplitSlash("", "users");
    SplitSlash(Slash("", "users"), userId);
  }

  /** Client.GetEnrollments: the request listing a course's enrollments. */
  function EnrollmentsRequest(courseId: string): (req: Request)
    ensures req.verb == "GET" && req.query == map[]
  {
    Request("GET", EnrollmentsPath(courseId), map[])
  }

  /** The path of GetEnrollments names the course as its third segment. */
  lemma EnrollmentsPathSegments(courseId: string)
    requires '/' !in courseId
    ensures Split(EnrollmentsPath(courseId)) == ["", "courses", courseId, "enrollments"]
  {
    CoursePathSegments(courseId);
    SplitSlash(Slash(Slash("", "courses"), courseId), "enrollments");
  }

  /**
   * Client.RemoveUserFromCourse: a DELETE of /courses/{course}/enrollments/{enrollment}
   * whose only query parameter is task=delete.
   */
  function DeleteEnrollmentRequest(courseId: string, enrollmentId: string): (req: Request)
    ensures req.verb == "DELETE"
    ensures req.query.Keys == {"task"} && req.query["task"] == ["delete"]
  {
    Request("DELETE", EnrollmentPath(courseId, enrollmentId), Add(map[], "task", "delete"))
  }

  /** The delete targets exactly the course and the enrollment it was given. */
  lemma DeletePathSegments(courseId: string, enrollmentId: string)
    requires '/' !in courseId && '/' !in enrollmentId
    ensures Split(DeleteEnrollmentRequest(courseId, enrollmentId).path)
         == ["", "courses", courseId, "enrollments", enrollmentId]
  {
    EnrollmentsPathSegments(courseId);
    SplitSlash(EnrollmentsPath(courseId), enrollmentId);
  }

  /**
   * Client.AddUserToCourse: a POST to the course's enrollments whose body is the
   * one-key object {"enrollment": req}; req carries the user, the type and the
   * notify flag and leaves every other field empty.
   */
  function AddUserRequest(courseId: string, userId: string, enrollmentType: string, notify: bool): (req: BodyRequest)
    ensures req.verb == "POST" && req.query == map[]
    ensures req.body.Keys == {"enrollment"}
    ensures req.body["enrollment"].userId == userId
    ensures req.body["enrollment"].enrollmentType == enrollmentType
    ensures req.body["enrollment"].notify == notify
    ensures req.body["enrollment"].enrollmentState == "" && req.body["enrollment"].courseSection == ""
    ensures !req.body["enrollment"].limitPrivileges
    ensures req.path == EnrollmentsRequest(courseId).path
  {
    var enrollReq := EnrollmentRequest(userId, enrollmentType, "", "", false, notify);
    BodyRequest("POST", EnrollmentsPath(courseId), map[], map["enrollment" := enrollReq])
  }

  /** The position of the first enrollment of user `uid`, if there is one. */
  function FirstMatch(enrollments: seq<Enrollment>, uid: int): (k: Option<nat>)
    ensures k.Some? ==> k.value < |enrollments| && enrollments[k.value].userId == uid
    ensures k.Some? ==> forall j :: 0 <= j < k.value ==> enrollments[j].userId != uid
    ensures k.None? ==> forall j :: 0 <= j < |enrollments| ==> enrollments[j].userId != uid
  {
    if enrollments == [] then None
    else if enrollments[0].userId == uid then Some(0)
    else match FirstMatch(enrollments[1..], uid)
      case None => None
      case Some(k) => Some(k + 1)
  }

  /** An index whose enrollment belongs to the user, with none of the user's before it, is the first match. */
  lemma FirstMatchIs(enrollments: seq<Enrollment>, uid: int, i: nat)
    requires i < |enrollments| && enrollments[i].userId == uid
    requires forall j :: 0 <= j < i ==> enrollments[j].userId != uid
    ensures FirstMatch(enrollments, uid) == Some(i)
  {
  }

  /**
   * Client.RemoveUserByID. `fetched` is what GetEnrollments answers for the
   * course and `deleteAnswer` what the server answers to a delete request;
   * `issued` logs the requests sent, in order.
   */
  method RemoveUserById(courseId: string, userId: string,
                        fetched: Result<seq<Enrollment>, Error>,
                        deleteAnswer: Request -> Option<Error>)
    returns (err: Option<Error>, ghost issued: seq<Request>)
    ensures 1 <= |issued| <= 2 && issued[0] == EnrollmentsRequest(courseId)
    // the enrollments could not be fetched: nothing is deleted
    ensures fetched.Failure? ==> err == Some(FetchingEnrollments(fetched.error)) && |issued| == 1
    // the user id is not an integer: nothing is deleted
    ensures fetched.Success? && Strconv.Atoi(userId).None? ==>
              err == Some(InvalidUserId(userId)) && |issued| == 1
    // no enrollment of that user: nothing is deleted
    ensures fetched.Success? && Strconv.Atoi(userId).Some? &&
            FirstMatch(fetched.value, Strconv.Atoi(userId).value).None? ==>
              err == Some(NoEnrollmentFound(userId, courseId)) && |issued| == 1
    // exactly one delete, of the first matching enrollment; its failure is wrapped
    ensures fetched.Success? && Strconv.Atoi(userId).Some? &&
            FirstMatch(fetched.value, Strconv.Atoi(userId).value).Some? ==>
              var e := fetched.value[FirstMatch(fetched.value, Strconv.Atoi(userId).value).value];
              var del := DeleteEnrollmentRequest(courseId, Strconv.Itoa(e.id));
              |issued| == 2 && issued[1] == del &&
              err == (if deleteAnswer(del).Some? then Some(RemovingEnrollment(deleteAnswer(del).value)) else None)
  {
    issued := [EnrollmentsRequest(courseId)];
    if fetched.Failure? {
      return Some(FetchingEnrollments(fetched.error)), issued;
    }
    var enrollments := fetched.value;
    var parsed := Strconv.Atoi(userId);
    if parsed.None? {
      return Some(InvalidUserId(userId)), issued;
    }
    var uid := parsed.value;
    var found := false;
    var i := 0;
    while i < |enrollments|
      invariant 0 <= i <= |enrollments|
      invariant forall j :: 0 <= j < i ==> enrollments[j].userId != uid
      invariant !found && |issued| == 1 && issued[0] == EnrollmentsRequest(courseId)
    {
      var enrollment := enrollments[i];
      if enrollment.userId == uid {
        FirstMatchIs(enrollments, uid, i);
        var del := DeleteEnrollmentRequest(courseId, Strconv.Itoa(enrollment.id));
        issued := issued + [del];
        var answer := deleteAnswer(del);
        if answer.Some? {
          return Some(RemovingEnrollment(answer.value)), issued;
        }
        found := true;
        break;
      }
      i := i + 1;
    }
    if !found {
      return Some(NoEnrollmentFound(userId, courseId)), issued;
    }
    err := None;
  }
}
