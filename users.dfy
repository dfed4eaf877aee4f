/**
 * The `users` commands: the paged listing that fills the users table, the
 * per-user action menu opened by the single-selection callback, and the
 * bulk-remove screen opened by the multi-selection callback. What the server
 * answers is given as parameters; the requests and removals made are
 * returned as ghost logs.
 */
module Users {
  import opened Wrappers
  import Strconv
  import opened Models
  import Api
  import Table

  /** The page size runUsersList asks for. */
  const PerPage: nat := 50

  const UserColumns: seq<Table.Column> :=
    [Table.Column("ID", 10), Table.Column("Name", 30), Table.Column("Email", 30), Table.Column("Login ID", 15)]

  const SingleSelectHelp := "↑/↓: Navigate • enter: Select • q: Quit"
  const UserChoices := ["View user details", "Remove user from course", "Cancel"]
  const BulkChoices := ["Remove all selected users", "Cancel"]

  // ---------------------------------------------------------------------------
  // Paged listing

  /**
   * The server's answers to GetUsers for pages 1, 2, ..., |source| of one
   * course; every page after those is answered with an empty page.
   */
  type PageSource = seq<Result<seq<User>, Api.Error>>

  function PageAt(source: PageSource, page: nat): Result<seq<User>, Api.Error> {
    if 1 <= page <= |source| then source[page - 1] else Success([])
  }

  /** The users of a listing (or the error that ended it) and the page numbers requested. */
  datatype Listing = Listing(users: Result<seq<User>, Api.Error>, requested: seq<nat>)

  /** A listing preceded by pages already gathered: `users` from the pages `pages`. */
  function Join(users: seq<User>, pages: seq<nat>, rest: Listing): Listing {
    Listing(if rest.users.Success? then Success(users + rest.users.value) else rest.users, pages + rest.requested)
  }

  lemma JoinNothing(l: Listing)
    ensures Join([], [], l) == l
  {
    if l.users.Success? {
      assert [] + l.users.value == l.users.value;
    }
    assert [] + l.requested == l.requested;
  }

  /** Joining in two steps is joining the gathered pages at once. */
  lemma JoinJoin(a: seq<User>, pa: seq<nat>, b: seq<User>, pb: seq<nat>, rest: Listing)
    ensures Join(a, pa, Join(b, pb, rest)) == Join(a + b, pa + pb, rest)
  {
    if rest.users.Success? {
      assert a + (b + rest.users.value) == (a + b) + rest.users.value;
    }
    assert pa + (pb + rest.requested) == (pa + pb) + rest.requested;
  }

  /** The listing from `page` on: fetch pages until an error or a page shorter than PerPage. */
  function Collect(source: PageSource, page: nat): (l: Listing)
    requires page >= 1
    ensures |l.requested| >= 1
    decreases |source| + 1 - page
  {
    match PageAt(source, page)
    case Failure(e) => Listing(Failure(e), [page])
    case Success(users) =>
      if |users| < PerPage then Listing(Success(users), [page])
      else Join(users, [page], Collect(source, page + 1))
  }

  /** The users of pages `from` to `to` inclusive, in order. */
  function PagesFrom(source: PageSource, from: nat, to: nat): seq<User>
    decreases to + 1 - from
  {
    if from > to then []
    else (if PageAt(source, from).Success? then PageAt(source, from).value else []) + PagesFrom(source, from + 1, to)
  }

  /**
   * The pages requested are page, page + 1, ..., consecutively; every page
   * before the last was a full page; the listing ends at the first error or
   * short page; and a successful listing is the concatenation of the pages in order.
   */
  lemma {:induction false} CollectShape(source: PageSource, page: nat)
    requires page >= 1
    ensures var l := Collect(source, page);
            var last := page + |l.requested| - 1;
            && |l.requested| >= 1
            && (forall i :: 0 <= i < |l.requested| ==> l.requested[i] == page + i)
            && (forall q :: page <= q < last ==> PageAt(source, q).Success? && |PageAt(source, q).value| >= PerPage)
            && (l.users.Failure? <==> PageAt(source, last).Failure?)
            && (l.users.Failure? ==> l.users.error == PageAt(source, last).error)
            && (l.users.Success? ==> |PageAt(source, last).value| < PerPage &&
                                     l.users.value == PagesFrom(source, page, last))
    decreases |source| + 1 - page
  {
    var answer := PageAt(source, page);
    if answer.Success? && |answer.value| >= PerPage {
      CollectShape(source, page + 1);
      var rest := Collect(source, page + 1);
      var l := Collect(source, page);
      assert l == Join(answer.value, [page], rest);
      var last := page + |l.requested| - 1;
      assert last == page + 1 + |rest.requested| - 1;
      forall i | 0 <= i < |l.requested| ensures l.requested[i] == page + i {
        if i > 0 {
          assert l.requested[i] == rest.requested[i - 1];
        }
      }
      if l.users.Success? {
        assert PagesFrom(source, page, last) == answer.value + PagesFrom(source, page + 1, last);
      }
    }
  }

  /** The example of three pages of sizes 50, 50 and 31: three requests and 131 users. */
  lemma ThreePagesExample(u: User)
    ensures var source: PageSource := [Success(seq(50, _ => u)), Success(seq(50, _ => u)), Success(seq(31, _ => u))];
            var l := Collect(source, 1);
            l.requested == [1, 2, 3] && l.users.Success? && |l.users.value| == 131
  {
    var source: PageSource := [Success(seq(50, _ => u)), Success(seq(50, _ => u)), Success(seq(31, _ => u))];
    assert Collect(source, 3) == Listing(Success(seq(31, _ => u)), [3]);
    assert Collect(source, 2) == Join(seq(50, _ => u), [2], Collect(source, 3));
  }

  /** A first page of 12 users is the only request. */
  lemma ShortFirstPageExample(u: User)
    ensures var l := Collect([Success(seq(12, _ => u))], 1);
            l.requested == [1] && l.users == Success(seq(12, _ => u))
  {
  }

  /** `requests` are the GetUsers requests for the course's pages `pages`, in order, 50 users each. */
  ghost predicate PageRequests(courseId: string, pages: seq<nat>, requests: seq<Api.Request>) {
    && |requests| == |pages|
    && forall i :: 0 <= i < |requests| ==>
         && requests[i].path == Api.UsersPath(courseId)
         && "page" in requests[i].query && "per_page" in requests[i].query
         && requests[i].query["page"] == [Strconv.Itoa(pages[i])]
         && requests[i].query["per_page"] == [Strconv.Itoa(PerPage)]
  }

  /** One more page request, for the next page, keeps the log in step with the pages. */
  lemma PageRequestsStep(courseId: string, pages: seq<nat>, requests: seq<Api.Request>, page: nat, req: Api.Request)
    requires PageRequests(courseId, pages, requests)
    requires req.path == Api.UsersPath(courseId) && "page" in req.query && "per_page" in req.query
    requires req.query["page"] == [Strconv.Itoa(page)] && req.query["per_page"] == [Strconv.Itoa(PerPage)]
    ensures PageRequests(courseId, pages + [page], requests + [req])
  {
  }

  /**
   * The pagination loop of runUsersList: GetUsers(course, page, 50) for
   * page = 1, 2, ... until a page has fewer than 50 users; any error ends the
   * listing. `requests` logs the GetUsers requests sent.
   */
  method FetchAllUsers(courseId: string, source: PageSource)
    returns (users: Result<seq<User>, Api.Error>, ghost requests: seq<Api.Request>)
    ensures users == Collect(source, 1).users
    ensures PageRequests(courseId, Collect(source, 1).requested, requests)
  {
    var all: seq<User> := [];
    var page: nat := 1;
    var more := true;
    ghost var requested: seq<nat> := [];
    requests := [];
    JoinNothing(Collect(source, 1));
    while more
      invariant page >= 1
      invariant more ==> page <= |source| + 1
      invariant more ==> Collect(source, 1) == Join(all, requested, Collect(source, page))
      invariant !more ==> Collect(source, 1) == Listing(Success(all), requested)
      invariant PageRequests(courseId, requested, requests)
      decreases more, |source| + 1 - page
    {
      var req := Api.GetUsersRequest(courseId, page, PerPage);
      PageRequestsStep(courseId, requested, requests, page, req);
      requests := requests + [req];
      ghost var before := requested;
      requested := requested + [page];
      var answer := PageAt(source, page);
      if answer.Failure? {
        assert Collect(source, page) == Listing(Failure(answer.error), [page]);
        return Failure(answer.error), requests;
      }
      var batch := answer.value;
      ghost var allBefore := all;
      all := all + batch;
      if |batch| < PerPage {
        more := false;
      } else {
        assert Collect(source, page) == Join(batch, [page], Collect(source, page + 1));
        JoinJoin(allBefore, before, batch, [page], Collect(source, page + 1));
        page := page + 1;
      }
    }
    users := Success(all);
  }

  /** The GetUsers requests of the listing ask for 50 users per page. */
  lemma PerPageIsFifty()
    ensures Strconv.Itoa(PerPage) == "50"
  {
    assert Strconv.NatDigits(5) == "5";
  }

  /** The table row of one user: ID, name, email and login, one cell per column. */
  function UserRow(u: User): (row: Table.Row)
    ensures |row| == |UserColumns|
    ensures Strconv.Atoi(row[0]) == Some(u.id)
    ensures row[1] == u.name && row[2] == u.email && row[3] == u.loginId
  {
    Strconv.AtoiItoa(u.id);
    [Strconv.Itoa(u.id), u.name, u.email, u.loginId]
  }

  method BuildRows(users: seq<User>) returns (rows: seq<Table.Row>)
    ensures |rows| == |users|
    ensures forall i :: 0 <= i < |users| ==> rows[i] == UserRow(users[i])
  {
    rows := [];
    for i := 0 to |users|
      invariant |rows| == i
      invariant forall j :: 0 <= j < i ==> rows[j] == UserRow(users[j])
    {
      rows := rows + [UserRow(users[i])];
    }
  }

  /** `row` is the table row of one of `users`. */
  ghost predicate IsUserRow(users: seq<User>, row: Table.Row) {
    exists i :: 0 <= i < |users| && row == UserRow(users[i])
  }

  /**
   * Every row the users table hands to a callback is the row of one of the
   * listed users, so (by UserRow) it has the four cells and its first cell
   * parses back to that user's ID.
   */
  lemma SelectedUserRows(users: seq<User>, rows: seq<Table.Row>, sel: set<int>)
    requires |rows| == |users| && forall i :: 0 <= i < |users| ==> rows[i] == UserRow(users[i])
    ensures forall r :: r in Table.SelectedRows(rows, sel) ==> IsUserRow(users, r)
  {
    var idx := Table.SelectedIndices(|rows|, sel);
    var picked := Table.SelectedRows(rows, sel);
    forall r | r in picked
      ensures IsUserRow(users, r)
    {
      var k :| 0 <= k < |picked| && picked[k] == r;
      var i := idx[k];
      assert r == rows[i] == UserRow(users[i]);
    }
  }

  datatype ListOutcome = FetchFailed(error: Api.Error) | NoUsers | Launched(table: Table.TableModel)

  /**
   * runUsersList up to launching the table program: page through the users,
   * stop on an error or an empty listing, otherwise build the users table in
   * single- or multi-select mode with the matching callback set.
   */
  method RunUsersList(courseId: string, multiSelect: bool, source: PageSource)
    returns (outcome: ListOutcome, ghost requests: seq<Api.Request>)
    ensures PageRequests(courseId, Collect(source, 1).requested, requests)
    ensures Collect(source, 1).users.Failure? ==> outcome == FetchFailed(Collect(source, 1).users.error)
    ensures Collect(source, 1).users == Success([]) ==> outcome == NoUsers
    ensures Collect(source, 1).users.Success? && Collect(source, 1).users.value != [] ==>
              var users := Collect(source, 1).users.value;
              && outcome.Launched? && fresh(outcome.table) && outcome.table.Valid()
              && outcome.table.columns == UserColumns
              && |outcome.table.rows| == |users|
              && (forall i :: 0 <= i < |users| ==> outcome.table.rows[i] == UserRow(users[i]))
              && outcome.table.title == "Users in Course " + courseId + " (" + Strconv.Itoa(|users|) + " users total)"
              && outcome.table.selected == {} && outcome.table.cursor == 0
              && outcome.table.multiSelectMode == multiSelect
              && outcome.table.hasOnMultiSelect == multiSelect && outcome.table.hasOnSelect == !multiSelect
              && outcome.table.help == if multiSelect then Table.DefaultHelp else SingleSelectHelp
  {
    var fetched;
    fetched, requests := FetchAllUsers(courseId, source);
    if fetched.Failure? {
      return FetchFailed(fetched.error), requests;
    }
    var users := fetched.value;
    if |users| == 0 {
      return NoUsers, requests;
    }
    var rows := BuildRows(users);
    var t := new Table.TableModel(UserColumns, rows);
    t.title := "Users in Course " + courseId + " (" + Strconv.Itoa(|users|) + " users total)";
    if multiSelect {
      t.EnableMultiSelect();
      t.hasOnMultiSelect := true;
    } else {
      t.help := SingleSelectHelp;
      t.hasOnSelect := true;
    }
    outcome := Launched(t);
  }

  // ---------------------------------------------------------------------------
  // Action menus

  /** Keys of the action menus: QuitKey is "q", "ctrl+c" or "esc"; Up is "up" or "k"; Down is "down" or "j". */
  datatype MenuKey = QuitKey | Up | Down | Enter | OtherKey

  datatype Cmd = NoCmd | Quit

  /** The menu cursor after "up": one less, but never below 0. */
  function CursorUp(cursor: int): (c: int)
    ensures cursor > 0 ==> c == cursor - 1
    ensures cursor <= 0 ==> c == cursor
  {
    if cursor > 0 then cursor - 1 else cursor
  }

  /** The menu cursor after "down": one more, but never past the last choice. */
  function CursorDown(cursor: int, choices: nat): (c: int)
    ensures cursor < choices - 1 ==> c == cursor + 1
    ensures cursor >= choices - 1 ==> c == cursor
  {
    if cursor < choices - 1 then cursor + 1 else cursor
  }

  /** Up and down keep the cursor on a choice, without wrapping around. */
  lemma CursorStaysOnChoices(cursor: int, choices: nat)
    requires 0 <= cursor < choices
    ensures 0 <= CursorUp(cursor) < choices && 0 <= CursorDown(cursor, choices) < choices
    ensures cursor == 0 ==> CursorUp(cursor) == 0
    ensures cursor == choices - 1 ==> CursorDown(cursor, choices) == choices - 1
  {
  }

  /** One line of a menu: ">" before the choice under the cursor, " " before the others. */
  function MenuLine(choice: string, underCursor: bool): (line: string)
    ensures |line| == |choice| + 2 && line[2..] == choice
    ensures line[0] == '>' <==> underCursor
  {
    (if underCursor then ">" else " ") + " " + choice
  }

  /** The choice lines of an action menu's View. */
  method RenderMenu(choices: seq<string>, cursor: int) returns (lines: seq<string>)
    ensures |lines| == |choices|
    ensures forall i :: 0 <= i < |choices| ==> lines[i] == MenuLine(choices[i], i == cursor)
  {
    lines := [];
    for i := 0 to |choices|
      invariant |lines| == i
      invariant forall j :: 0 <= j < i ==> lines[j] == MenuLine(choices[j], j == cursor)
    {
      var marker := " ";
      if cursor == i {
        marker := ">";
      }
      lines := lines + [marker + " " + choices[i]];
    }
  }

  /** What an action reports once it has run. */
  datatype ActionResult =
    | NoResult
    | Details(user: User)
    | DetailsError(error: Api.Error)
    | Removed(userId: string, userName: string, courseId: string)
    | RemoveError(error: Api.Error)

  /** The client calls an action menu makes. */
  datatype Call = GetUserDetails(userId: string) | RemoveUserById(courseId: string, userId: string)

  datatype ActionView = ResultView(result: ActionResult) | MenuView(userName: string, userId: string, lines: seq<string>)

  /** UserActionModel: what to do with the one user picked in single-select mode. */
  class UserActionModel {
    const courseId: string
    const userId: string
    const userName: string
    const choices: seq<string>
    var cursor: int
    var completed: bool
    var result: ActionResult
    /** Update has returned tea.Quit; the event loop delivers no further messages. */
    ghost var quit: bool

    ghost predicate Valid()
      reads this
    {
      && 0 <= cursor < |choices|
      && (completed ==> quit)
      && (!completed ==> result == NoResult)
    }

    /** The model the single-selection callback builds from the picked row. */
    constructor (courseId: string, row: Table.Row)
      requires |row| >= 2
      ensures Valid() && !quit
      ensures this.courseId == courseId && userId == row[0] && userName == row[1]
      ensures choices == UserChoices && cursor == 0 && !completed && result == NoResult
    {
      this.courseId := courseId;
      userId := row[0];
      userName := row[1];
      choices := UserChoices;
      cursor := 0;
      completed := false;
      result := NoResult;
      quit := false;
    }

    /**
     * One key event. `details` is what GetUserDetails answers for the user and
     * `removal` what RemoveUserByID answers; `calls` logs the calls made.
     */
    method Update(key: MenuKey, details: Result<User, Api.Error>, removal: Option<Api.Error>)
      returns (cmd: Cmd, ghost calls: seq<Call>)
      requires Valid() && !quit
      modifies this`cursor, this`completed, this`result, this`quit
      ensures Valid()
      ensures key.QuitKey? ==> cmd == Quit && quit && cursor == old(cursor) && !completed && calls == []
      ensures key.Up? ==> cmd == NoCmd && !quit && cursor == CursorUp(old(cursor)) && !completed && calls == []
      ensures key.Down? ==>
                cmd == NoCmd && !quit && cursor == CursorDown(old(cursor), |choices|) && !completed && calls == []
      ensures key.OtherKey? ==> cmd == NoCmd && !quit && cursor == old(cursor) && !completed && calls == []
      ensures key.Enter? ==> cmd == Quit && quit && cursor == old(cursor) && (completed <==> cursor == 0 || cursor == 1)
      ensures key.Enter? && cursor == 0 ==>
                calls == [GetUserDetails(userId)] &&
                result == if details.Success? then Details(details.value) else DetailsError(details.error)
      ensures key.Enter? && cursor == 1 ==>
                calls == [RemoveUserById(courseId, userId)] &&
                result == if removal.None? then Removed(userId, userName, courseId) else RemoveError(removal.value)
      ensures key.Enter? && cursor >= 2 ==> calls == [] && result == NoResult
    {
      calls := [];
      cmd := NoCmd;
      match key
      case QuitKey =>
        cmd := Quit;
        quit := true;
      case Up =>
        if cursor > 0 {
          cursor := cursor - 1;
        }
      case Down =>
        if cursor < |choices| - 1 {
          cursor := cursor + 1;
        }
      case OtherKey =>
      case Enter =>
        if cursor == 0 {
          calls := [GetUserDetails(userId)];
          if details.Failure? {
            result := DetailsError(details.error);
          } else {
            result := Details(details.value);
          }
          completed := true;
        } else if cursor == 1 {
          calls := [RemoveUserById(courseId, userId)];
          if removal.Some? {
            result := RemoveError(removal.value);
          } else {
            result := Removed(userId, userName, courseId);
          }
          completed := true;
        }
        cmd := Quit;
        quit := true;
    }

    /** The result once an action has run, the menu otherwise. */
    method View() returns (v: ActionView)
      requires Valid()
      ensures completed ==> v == ResultView(result)
      ensures !completed ==> v.MenuView? && v.userName == userName && v.userId == userId &&
                             |v.lines| == |choices| &&
                             forall i :: 0 <= i < |choices| ==> v.lines[i] == MenuLine(choices[i], i == cursor)
    {
      if completed {
        return ResultView(result);
      }
      var lines := RenderMenu(choices, cursor);
      v := MenuView(userName, userId, lines);
    }
  }

  // ---------------------------------------------------------------------------
  // Bulk removal

  /** The lines of the bulk-removal report. */
  datatype ReportLine =
    | Header(total: nat, courseId: string)
    | RemovedLine(userName: string, userId: string)
    | FailedLine(userName: string, userId: string, error: Api.Error)
    | Summary(success: nat, total: nat)

  /** The report line for one row, given what RemoveUserByID answered for it. */
  function OutcomeLine(row: Table.Row, answer: Option<Api.Error>): (line: ReportLine)
    requires |row| >= 2
    ensures line.RemovedLine? <==> answer.None?
    ensures line.RemovedLine? || line.FailedLine?
    ensures line.userName == row[1] && line.userId == row[0]
  {
    if answer.Some? then FailedLine(row[1], row[0], answer.value) else RemovedLine(row[1], row[0])
  }

  predicate WellFormedRows(rows: seq<Table.Row>) {
    forall i :: 0 <= i < |rows| ==> |rows[i]| >= 2
  }

  /**
   * What the k-th RemoveUserByID call of a batch (counting from 0) answers for a
   * user ID. The position matters: each call deletes an enrollment on the
   * server, so a later call for the same user can answer differently.
   */
  type RemovalAnswers = (nat, string) -> Option<Api.Error>

  /** The outcome lines of the first `n` rows, in row order. */
  function OutcomesUpTo(rows: seq<Table.Row>, remove: RemovalAnswers, n: nat): (lines: seq<ReportLine>)
    requires WellFormedRows(rows) && n <= |rows|
    ensures |lines| == n
  {
    if n == 0 then [] else OutcomesUpTo(rows, remove, n - 1) + [OutcomeLine(rows[n - 1], remove(n - 1, rows[n - 1][0]))]
  }

  /** One outcome line per row, in row order. */
  function Outcomes(rows: seq<Table.Row>, remove: RemovalAnswers): (lines: seq<ReportLine>)
    requires WellFormedRows(rows)
    ensures |lines| == |rows|
  {
    OutcomesUpTo(rows, remove, |rows|)
  }

  /** The outcome line at position `i` is the one for row `i`. */
  lemma {:induction false} OutcomesUpToAt(rows: seq<Table.Row>, remove: RemovalAnswers, n: nat, i: nat)
    requires WellFormedRows(rows) && i < n <= |rows|
    ensures OutcomesUpTo(rows, remove, n)[i] == OutcomeLine(rows[i], remove(i, rows[i][0]))
  {
    if i < n - 1 {
      OutcomesUpToAt(rows, remove, n - 1, i);
    }
  }

  /** Every line of the report body is the outcome of the row at the same position. */
  lemma OutcomesAt(rows: seq<Table.Row>, remove: RemovalAnswers, i: nat)
    requires WellFormedRows(rows) && i < |rows|
    ensures Outcomes(rows, remove)[i] == OutcomeLine(rows[i], remove(i, rows[i][0]))
  {
    OutcomesUpToAt(rows, remove, |rows|, i);
  }

  function CountRemoved(lines: seq<ReportLine>): nat {
    if lines == [] then 0 else CountRemoved(lines[..|lines| - 1]) + (if lines[|lines| - 1].RemovedLine? then 1 else 0)
  }

  function CountFailed(lines: seq<ReportLine>): nat {
    if lines == [] then 0 else CountFailed(lines[..|lines| - 1]) + (if lines[|lines| - 1].FailedLine? then 1 else 0)
  }

  /** Appending one line to a report adds it to the count of its kind and to no other. */
  lemma CountsAppend(lines: seq<ReportLine>, line: ReportLine)
    ensures CountRemoved(lines + [line]) == CountRemoved(lines) + (if line.RemovedLine? then 1 else 0)
    ensures CountFailed(lines + [line]) == CountFailed(lines) + (if line.FailedLine? then 1 else 0)
  {
    assert (lines + [line])[..|lines|] == lines;
  }

  /**
   * Where the bulk loop stands after the first `i` rows: the report so far, the
   * two counters and the user IDs RemoveUserByID was called with.
   */
  ghost predicate BatchState(rows: seq<Table.Row>, remove: RemovalAnswers, i: nat, header: ReportLine,
                             lines: seq<ReportLine>, success: nat, failed: nat, visited: seq<string>)
    requires WellFormedRows(rows) && i <= |rows|
  {
    && lines == [header] + OutcomesUpTo(rows, remove, i)
    && success == CountRemoved(OutcomesUpTo(rows, remove, i))
    && failed == CountFailed(OutcomesUpTo(rows, remove, i))
    && success + failed == i
    && |visited| == i && (forall j :: 0 <= j < i ==> visited[j] == rows[j][0])
  }

  /** One pass of the bulk loop: the next row's outcome line extends the report and one of the two counts. */
  lemma BatchStep(rows: seq<Table.Row>, remove: RemovalAnswers, i: nat, header: ReportLine,
                  lines: seq<ReportLine>, success: nat, failed: nat, visited: seq<string>)
    requires WellFormedRows(rows) && i < |rows|
    requires BatchState(rows, remove, i, header, lines, success, failed, visited)
    ensures var answer := remove(i, rows[i][0]);
            BatchState(rows, remove, i + 1, header, lines + [OutcomeLine(rows[i], answer)],
                       success + (if answer.None? then 1 else 0), failed + (if answer.Some? then 1 else 0),
                       visited + [rows[i][0]])
  {
    CountsAppend(OutcomesUpTo(rows, remove, i), OutcomeLine(rows[i], remove(i, rows[i][0])));
  }

  /** Every outcome line is a removal or a failure, so the two counts add up to the number of rows. */
  lemma {:induction false} CountsAddUp(rows: seq<Table.Row>, remove: RemovalAnswers, n: nat)
    requires WellFormedRows(rows) && n <= |rows|
    ensures CountRemoved(OutcomesUpTo(rows, remove, n)) + CountFailed(OutcomesUpTo(rows, remove, n)) == n
  {
    if n > 0 {
      CountsAddUp(rows, remove, n - 1);
      CountsAppend(OutcomesUpTo(rows, remove, n - 1), OutcomeLine(rows[n - 1], remove(n - 1, rows[n - 1][0])));
    }
  }

  /** Three users whose second removal fails: two removed, one failed, three outcome lines. */
  lemma SecondOfThreeFailsExample(a: Table.Row, b: Table.Row, c: Table.Row, e: Api.Error)
    requires |a| >= 2 && |b| >= 2 && |c| >= 2
    ensures var remove := (k: nat, id: string) => if k == 1 then Some(e) else None;
            var lines := Outcomes([a, b, c], remove);
            |lines| == 3 && CountRemoved(lines) == 2 && CountFailed(lines) == 1 && lines[1].FailedLine?
  {
    var remove := (k: nat, id: string) => if k == 1 then Some(e) else None;
    var lines := Outcomes([a, b, c], remove);
    OutcomesAt([a, b, c], remove, 0);
    OutcomesAt([a, b, c], remove, 1);
    OutcomesAt([a, b, c], remove, 2);
    assert lines[0].RemovedLine? && lines[1].FailedLine? && lines[2].RemovedLine?;
    var l1, l2 := lines[..1], lines[..2];
    assert l2[..1] == l1 && l1[..0] == [];
    assert CountRemoved(l1) == 1 && CountFailed(l1) == 0;
    assert CountRemoved(l2) == 1 && CountFailed(l2) == 1;
  }

  /**
   * A user selected twice is removed twice: the first call deletes the
   * enrollment, so the second can find none and fail, and the report then
   * holds one removal and one failure for the same user.
   */
  lemma SameUserTwiceExample(a: Table.Row, e: Api.Error)
    requires |a| >= 2
    ensures var remove := (k: nat, id: string) => if k == 0 then None else Some(e);
            var lines := Outcomes([a, a], remove);
            lines == [RemovedLine(a[1], a[0]), FailedLine(a[1], a[0], e)]
  {
    var remove := (k: nat, id: string) => if k == 0 then None else Some(e);
    OutcomesAt([a, a], remove, 0);
    OutcomesAt([a, a], remove, 1);
  }

  datatype BulkView = ReportView(report: seq<ReportLine>) | BulkMenuView(selectedCount: nat, courseId: string, lines: seq<string>)

  /** MultiActionModel: the bulk action on the rows picked in multi-select mode. */
  class MultiActionModel {
    const courseId: string
    const selectedUsers: seq<Table.Row>
    const choices: seq<string>
    var cursor: int
    var completed: bool
    var result: seq<ReportLine>
    var progress: nat
    var total: nat
    var success: nat
    var failed: nat
    /** Update has returned tea.Quit; the event loop delivers no further messages. */
    ghost var quit: bool

    /** The counters add up, and once the batch has run every selected row was processed. */
    ghost predicate Valid()
      reads this
    {
      && 0 <= cursor < |choices|
      && WellFormedRows(selectedUsers)
      && success + failed == progress
      && (completed ==> quit && progress == total == |selectedUsers|)
      && (!completed ==> progress == 0 && total == 0 && result == [])
    }

    /** The model the multi-selection callback builds from the selected rows. */
    constructor (courseId: string, selectedRows: seq<Table.Row>)
      requires WellFormedRows(selectedRows)
      ensures Valid() && !quit
      ensures this.courseId == courseId && selectedUsers == selectedRows && choices == BulkChoices
      ensures cursor == 0 && !completed && result == []
      ensures progress == 0 && total == 0 && success == 0 && failed == 0
    {
      this.courseId := courseId;
      selectedUsers := selectedRows;
      choices := BulkChoices;
      cursor := 0;
      completed := false;
      result := [];
      progress, total, success, failed := 0, 0, 0, 0;
      quit := false;
    }

    /**
     * One key event. Enter on "Remove all selected users" calls RemoveUserByID
     * for every selected row in order, whatever the earlier ones answered;
     * `remove` is what each call answers, by its position in the batch and the
     * user ID, and `visited` logs the user IDs it was called with.
     */
    method Update(key: MenuKey, remove: RemovalAnswers) returns (cmd: Cmd, ghost visited: seq<string>)
      requires Valid() && !quit
      modifies this`cursor, this`completed, this`result, this`quit
      modifies this`progress, this`total, this`success, this`failed
      ensures Valid()
      ensures key.QuitKey? ==> cmd == Quit && quit && cursor == old(cursor) && !completed && visited == []
      ensures key.Up? ==> cmd == NoCmd && !quit && cursor == CursorUp(old(cursor)) && !completed && visited == []
      ensures key.Down? ==>
                cmd == NoCmd && !quit && cursor == CursorDown(old(cursor), |choices|) && !completed && visited == []
      ensures key.OtherKey? ==> cmd == NoCmd && !quit && cursor == old(cursor) && !completed && visited == []
      ensures key.Enter? ==> cmd == Quit && quit && cursor == old(cursor) && (completed <==> cursor == 0)
      ensures key.Enter? && cursor != 0 ==> visited == [] && result == []
      ensures key.Enter? && cursor == 0 ==>
                && |visited| == |selectedUsers|
                && (forall i :: 0 <= i < |visited| ==> visited[i] == selectedUsers[i][0])
                && result == [Header(|selectedUsers|, courseId)] + Outcomes(selectedUsers, remove)
                             + [Summary(success, total)]
                && success == CountRemoved(Outcomes(selectedUsers, remove))
                && failed == CountFailed(Outcomes(selectedUsers, remove))
                && success + failed == progress == total == |selectedUsers|
    {
      visited := [];
      cmd := NoCmd;
      match key
      case QuitKey =>
        cmd := Quit;
        quit := true;
      case Up =>
        if cursor > 0 {
          cursor := cursor - 1;
        }
      case Down =>
        if cursor < |choices| - 1 {
          cursor := cursor + 1;
        }
      case OtherKey =>
      case Enter =>
        if cursor == 0 {
          visited := RemoveSelected(remove);
          completed := true;
        }
        cmd := Quit;
        quit := true;
    }

    /**
     * The batch behind "Remove all selected users": one RemoveUserByID call per
     * selected row in order, an outcome line for each, and the running counters.
     */
    method RemoveSelected(remove: RemovalAnswers) returns (ghost visited: seq<string>)
      requires WellFormedRows(selectedUsers) && progress == 0 && success == 0 && failed == 0
      modifies this`result, this`progress, this`total, this`success, this`failed
      ensures |visited| == |selectedUsers| && forall i :: 0 <= i < |visited| ==> visited[i] == selectedUsers[i][0]
      ensures result == [Header(|selectedUsers|, courseId)] + Outcomes(selectedUsers, remove) + [Summary(success, total)]
      ensures success == CountRemoved(Outcomes(selectedUsers, remove))
      ensures failed == CountFailed(Outcomes(selectedUsers, remove))
      ensures success + failed == progress == total == |selectedUsers|
    {
      visited := [];
      total := |selectedUsers|;
      var header := Header(|selectedUsers|, courseId);
      var lines := [header];
      for i := 0 to |selectedUsers|
        invariant progress == i && total == |selectedUsers|
        invariant BatchState(selectedUsers, remove, i, header, lines, success, failed, visited)
      {
        var row := selectedUsers[i];
        var userId := row[0];
        var userName := row[1];
        var answer := remove(i, userId);
        BatchStep(selectedUsers, remove, i, header, lines, success, failed, visited);
        visited := visited + [userId];
        if answer.Some? {
          lines := lines + [FailedLine(userName, userId, answer.value)];
          failed := failed + 1;
        } else {
          lines := lines + [RemovedLine(userName, userId)];
          success := success + 1;
        }
        progress := progress + 1;
      }
      result := lines + [Summary(success, total)];
    }

    /** The report once the batch has run, the menu otherwise. */
    method View() returns (v: BulkView)
      requires Valid()
      ensures completed ==> v == ReportView(result)
      ensures !completed ==> v.BulkMenuView? && v.selectedCount == |selectedUsers| && v.courseId == courseId &&
                             |v.lines| == |choices| &&
                             forall i :: 0 <= i < |choices| ==> v.lines[i] == MenuLine(choices[i], i == cursor)
    {
      if completed {
        return ReportView(result);
      }
      var lines := RenderMenu(choices, cursor);
      v := BulkMenuView(|selectedUsers|, courseId, lines);
    }
  }
}
