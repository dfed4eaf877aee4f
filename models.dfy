/**
 * The records the client decodes from the API, with the fields the core
 * reads. Time-valued fields, the nested grade summary and JSON tags are not
 * part of this model.
 */
module Models {
  import Strconv

  datatype User = User(
    id: Strconv.Int,
    name: string,
    sortableName: string,
    shortName: string,
    sisUserId: string,
    sisImportId: Strconv.Int,
    loginId: string,
    integrationId: string,
    email: string,
    locale: string,
    avatar: string)

  /** A user's membership in a course. */
  datatype Enrollment = Enrollment(
    id: Strconv.Int,
    userId: Strconv.Int,
    courseId: Strconv.Int,
    enrollmentType: string,
    totalActivityTime: Strconv.Int,
    htmlUrl: string,
    user: User,
    courseSectionId: Strconv.Int,
    enrollmentState: string,
    limitPrivileges: bool,
    role: string,
    roleId: Strconv.Int)
}
