# canvas-cli core, modelled in Dafny

canvas-cli is a terminal client for the Canvas learning-management system.
This project models its core:

- the selectable table widget (`ui.TableModel`). It holds a set of selected row indices. It fires a single- or multi-selection callback on Enter. In multi-select mode it draws a checkmark column.
- the `users list` command. It pages through a course's users 50 at a time and turns each user into a four-cell table row. It then opens the per-user action menu (`UserActionModel`) or the bulk-remove screen (`MultiActionModel`).
- the request shaping of the API client: `GetUsers`, `GetUserDetails`, `GetEnrollments`, `RemoveUserFromCourse` and `AddUserToCourse`. It also covers `RemoveUserByID`, which scans the enrollments for the first one of a user and deletes it.
- the interactive `config` form (`ConfigModel`). It has two text inputs, a focus index that cycles between them, and Enter, which either advances the focus or saves both settings in order.

Each file holds one module:

| file | module |
|---|---|
| `wrappers.dfy` | `Option` and `Result` |
| `strconv.dfy` | `strconv.Itoa`/`Atoi` on 64-bit integers |
| `models.dfy` | the `User` and `Enrollment` records |
| `api.dfy` | the client |
| `table.dfy` | the table widget |
| `users.dfy` | the users commands |
| `config.dfy` | the config form |

Objects that the program updates in place are classes: the table, the two action menus and the config form. Their methods are proved against pure functions. Those functions carry lemmas: toggle parity, in-order selection, pagination shape, and counters that add up.

Nothing is sent over the network. Whatever a server or the configuration store answers is a parameter of the operation:

- a finite sequence of page answers;
- the fetched enrollments;
- a function answering delete requests;
- a function answering the bulk removals, by each call's position in the batch and the user ID, since earlier calls change the enrollments on the server;
- a function answering configuration writes.

The requests an operation issues are returned as a ghost log.

## Model

| member | source | states |
|---|---|---|
| Strconv.Itoa | pkg/api/client.go:170 | the decimal text of an integer is non-empty, starts with '-' exactly for negatives, is digits otherwise, and has no '/' (so it is one path segment) |
| Strconv.Atoi | pkg/api/client.go:286 | a successful parse had at least one character, and an unsigned successful parse is all digits with that decimal value |
| Strconv.NatDigits | pkg/cmd/users.go:403 | the decimal digits of a natural number: at least one digit, and a leading '0' only for zero itself |
| Strconv.DigitsValueOfNatDigits | pkg/cmd/users.go:403 | the decimal digits of a natural number read back as that number |
| Strconv.AtoiItoa | pkg/cmd/users.go:403 | Atoi parses back every 64-bit integer Itoa prints, so the ID cell of a user row parses back to the user's ID |
| Strconv.AtoiUnsigned | pkg/cmd/users.go:403 | the digits of a non-negative 64-bit integer parse back to it |
| Strconv.AtoiNegative | pkg/cmd/users.go:403 | a minus sign followed by the digits of a magnitude down to 2^63 parses back to the negative value |
| Strconv.AtoiRejectsNonDigit | pkg/api/client.go:286-289 | a string with a non-digit after its first character is rejected as a user ID |
| Api.Add | pkg/api/client.go:166 | url.Values.Add appends the value to its key's list and leaves every other key unchanged |
| Api.GetUsersRequest | pkg/api/client.go:163-177 | GET of the course's users path; include[]=email always; page only when page > 0; per_page is perPage when positive, else "50"; no other query key |
| Api.UsersPathText | pkg/api/client.go:164 | the users path is "/courses/", the course ID, "/users" |
| Api.UserPathText | pkg/api/client.go:194 | the user-details path is "/users/" and the user ID |
| Api.EnrollmentsPathText | pkg/api/client.go:252 | the enrollments path is "/courses/", the course ID, "/enrollments" |
| Api.EnrollmentPathText | pkg/api/client.go:269 | the enrollment path is "/courses/", the course ID, "/enrollments/", the enrollment ID |
| Api.CoursePathSegments | pkg/api/client.go:164 | the course prefix of a course path splits into "", "courses", the course ID |
| Api.UsersPathSegments | pkg/api/client.go:164 | the users path splits into "", "courses", the course ID, "users" |
| Api.UserDetailsRequest | pkg/api/client.go:193-196 | GET with the single query key include[]=email |
| Api.UserDetailsPathSegments | pkg/api/client.go:194 | the user-details path splits into "", "users", the user ID |
| Api.EnrollmentsRequest | pkg/api/client.go:251-254 | GET with no query |
| Api.EnrollmentsPathSegments | pkg/api/client.go:252 | the enrollments path splits into "", "courses", the course ID, "enrollments" |
| Api.DeleteEnrollmentRequest | pkg/api/client.go:268-274 | a DELETE whose only query parameter is task=delete |
| Api.DeletePathSegments | pkg/api/client.go:269 | the delete path splits into "", "courses", the course, "enrollments", the enrollment: it targets exactly that course and that enrollment |
| Api.AddUserRequest | pkg/api/client.go:212-237 | a POST to the course's enrollments path, no query, body the one-key object {"enrollment": req}; user, type and notify from the arguments; state, section and limit-privileges left empty |
| Api.SplitNoSlash | pkg/api/client.go:269 | a slash-free string is a single piece |
| Api.SplitSlash | pkg/api/client.go:269 | appending "/" and a slash-free segment to a path adds exactly that segment to its pieces |
| Api.FirstMatch | pkg/api/client.go:293-294 | the index found is the first enrollment of the user; none is found only when no enrollment belongs to the user |
| Api.RemoveUserById | pkg/api/client.go:278-310 | fetch failure, an unparsable user ID and no matching enrollment each return their error after the fetch alone; otherwise exactly one delete is issued, for the first matching enrollment, and a failed delete is returned wrapped |
| Table.Indices | pkg/ui/table.go:99 | exactly the indices 0 to n-1 |
| Table.Toggle | pkg/ui/table.go:74-81 | the toggled index flips membership, every other index keeps it, and the size changes by one |
| Table.ToggleTwice | pkg/ui/table.go:74-81 | toggling the same index twice restores the selection |
| Table.ToggleParity | pkg/ui/table.go:74-81 | after a series of toggles an index is selected exactly when it started selected xor it was toggled an odd number of times |
| Table.OddlyOftenCounts | pkg/ui/table.go:74-81 | "toggled an odd number of times" is an odd count of the index in the toggle multiset |
| Table.ToggleOrderIrrelevant | pkg/ui/table.go:74-81 | the selection after a series of toggles does not depend on their order |
| Table.SelectedRows | pkg/ui/table.go:84-95 | every row GetSelectedRows returns is a row of the table (SelectedIndicesExact gives which rows and in what order) |
| Table.SelectedIndices | pkg/ui/table.go:88-92 | every index listed is a selected index below n |
| Table.SelectedIndicesExact | pkg/ui/table.go:88-92 | the indices listed are exactly the selected indices below n, strictly increasing, so the rows keep their table order |
| Table.AllIndicesSelected | pkg/ui/table.go:98-102 | with every index selected, the selected indices are 0, 1, ..., n-1 |
| Table.SelectAllGivesAllRows | pkg/ui/table.go:84-102 | after SelectAll the selected rows are all rows, in order |
| Table.NoIndicesSelected | pkg/ui/table.go:105-107 | the empty selection yields no indices |
| Table.NothingSelectedGivesNoRows | pkg/ui/table.go:84-107 | after ClearSelections GetSelectedRows returns no rows |
| Table.InRange | pkg/ui/table.go:88-92 | the selected indices that are row indices of an n-row table |
| Table.SelectedIndicesCount | pkg/ui/table.go:88-92 | there are as many indices listed as selected indices in range |
| Table.SelectedRowsCount | pkg/ui/table.go:84-95 | GetSelectedRows returns one row per selected index in range |
| Table.SelectedCountMatchesRows | pkg/ui/table.go:134-135 | when only row indices are selected, the selection size (the "N items selected" count) is the number of rows handed to the multi-selection callback |
| Table.EmptyTableSelection | pkg/ui/table.go:133-156 | on an empty table index 0 can be selected: the count is 1 while the multi-selection callback receives no rows |
| Table.Decorate | pkg/ui/table.go:185-197 | one decorated row per row, each one cell longer than its base row |
| Table.DecorateAgrees | pkg/ui/table.go:185-197 | the checkmark cell marks exactly the selected rows, and the cells after it are the base rows unchanged |
| Table.Commit | pkg/ui/table.go:133-142 | the multi-selection callback fires, with the selected rows, exactly in multi mode with a non-empty selection and a callback set; the single-selection callback fires, with the cursor's row, exactly in single mode with a callback set and rows present; otherwise none fires |
| Table.TableModel.constructor | pkg/ui/table.go:29-37 | a new table has title "Table", the default help, an empty selection, no callbacks, and multi-select mode off |
| Table.TableModel.IsRowSelected | pkg/ui/table.go:68-71 | true exactly for selected indices, which are row indices, or index 0 of an empty table |
| Table.TableModel.ToggleRow | pkg/ui/table.go:74-81 | the selection becomes its toggle at the cursor; the table stays valid |
| Table.TableModel.GetSelectedRows | pkg/ui/table.go:84-95 | the loop returns exactly the rows whose index is selected, in original order |
| Table.TableModel.SelectAll | pkg/ui/table.go:98-102 | every row index is added and none removed |
| Table.TableModel.ClearSelections | pkg/ui/table.go:105-107 | the selection becomes empty |
| Table.TableModel.EnableMultiSelect | pkg/ui/table.go:110-113 | multi-select mode is on and the help text is the default |
| Table.TableModel.Update | pkg/ui/table.go:116-146 | quit keys quit; space and "a" change the selection only in multi-select mode; enter fires the callback Commit chooses and changes nothing; other messages go to the widget |
| Table.TableModel.DecoratedRows | pkg/ui/table.go:185-197 | the row-building loop produces exactly the decorated grid |
| Table.TableModel.View | pkg/ui/table.go:149-234 | in multi mode with a selection: the count, the indicator column and the decorated grid; otherwise the plain columns and rows |
| Users.Collect | pkg/cmd/users.go:362-384 | the pagination loop as a function of the server's page answers: it always requests at least one page (CollectShape gives the full shape) |
| Users.CollectShape | pkg/cmd/users.go:362-384 | pages page, page+1, ... are requested consecutively; every page before the last was full; the listing ends at the first error (returned) or short page; its users are the pages concatenated in order |
| Users.ThreePagesExample | pkg/cmd/users.go:362-384 | page sizes 50, 50, 31 give three requests and 131 users |
| Users.ShortFirstPageExample | pkg/cmd/users.go:378-380 | a first page of 12 users is the only request |
| Users.FetchAllUsers | pkg/cmd/users.go:362-384 | the pagination loop returns the listing of the page source, and its GetUsers requests are for the course's users path, asking for the pages Collect requests with per_page 50 |
| Users.PerPageIsFifty | pkg/cmd/users.go:364 | the per_page value sent is "50" |
| Users.UserRow | pkg/cmd/users.go:400-408 | four cells, one per column; cell 0 parses back to the user ID; then name, email and login ID |
| Users.BuildRows | pkg/cmd/users.go:400-408 | one row per user, in order |
| Users.SelectedUserRows | pkg/cmd/users.go:310-312 | every row a callback receives is the row of a listed user, so row[0] and row[1] exist and row[0] parses to that user's ID |
| Users.RunUsersList | pkg/cmd/users.go:358-467 | it sends exactly the GetUsers requests of the pagination loop; a fetch error or an empty listing builds no table; otherwise the table holds one row per user, the title counts them, and the mode, help and callback follow the multi-select flag |
| Users.CursorUp | pkg/cmd/users.go:193-196 | one less, never below 0 |
| Users.CursorDown | pkg/cmd/users.go:197-200 | one more, never past the last choice |
| Users.CursorStaysOnChoices | pkg/cmd/users.go:294-301 | up and down keep the cursor in [0, len(choices)-1], without wrap-around |
| Users.MenuLine | pkg/cmd/users.go:257-263 | the line starts with ">" exactly for the choice under the cursor, and the choice text follows |
| Users.RenderMenu | pkg/cmd/users.go:257-263 | one line per choice, in order, marked exactly at the cursor |
| Users.UserActionModel.constructor | pkg/cmd/users.go:471-481 | the menu for the picked row: user ID and name from cells 0 and 1, the three choices, cursor 0, nothing run |
| Users.UserActionModel.Update | pkg/cmd/users.go:187-247 | quit keys quit; up/down clamp the cursor; enter on view or remove makes that one call, records its result and completes; enter on any other choice quits without completing |
| Users.UserActionModel.View | pkg/cmd/users.go:249-267 | the result once completed, otherwise the menu with the cursor's line marked |
| Users.OutcomeLine | pkg/cmd/users.go:314-321 | a removal line exactly when RemoveUserByID succeeded, a failure line otherwise, naming the row's user |
| Users.OutcomesUpTo | pkg/cmd/users.go:310-323 | the report body after the first n rows: one outcome line per row processed |
| Users.Outcomes | pkg/cmd/users.go:310-323 | one outcome line per selected row |
| Users.OutcomesUpToAt | pkg/cmd/users.go:310-323 | among the lines of the first n rows, line i is the outcome of row i |
| Users.OutcomesAt | pkg/cmd/users.go:310-323 | line i of the report body is the outcome of row i, for what the i-th RemoveUserByID call answered for that row's user ID |
| Users.CountsAppend | pkg/cmd/users.go:315-322 | appending a line to a report adds one to the count of its kind and leaves the other count alone |
| Users.BatchStep | pkg/cmd/users.go:310-323 | one pass of the loop appends the next row's outcome, adds one to exactly one of the two counts, and logs that row's user ID |
| Users.CountsAddUp | pkg/cmd/users.go:315-322 | removed plus failed equals the number of rows processed |
| Users.SecondOfThreeFailsExample | pkg/cmd/users.go:310-323 | three users whose second removal fails: two removed, one failed, three lines, the failure second |
| Users.SameUserTwiceExample | pkg/cmd/users.go:310-323 | a user selected twice is removed twice; when the first call removes the enrollment and the second finds none, the report has a removal line and then a failure line for that user |
| Users.MultiActionModel.constructor | pkg/cmd/users.go:441-446 | the bulk screen for the selected rows, cursor 0, counters 0, nothing run |
| Users.MultiActionModel.RemoveSelected | pkg/cmd/users.go:305-326 | RemoveUserByID runs for every selected row in order, whatever earlier ones answered; the report is the header, one outcome line per row and the summary; success + failed == progress == total == number of rows |
| Users.MultiActionModel.Update | pkg/cmd/users.go:288-336 | quit keys quit; up/down clamp the cursor; enter on "Remove all" runs the batch and completes; enter on cancel quits without completing |
| Users.MultiActionModel.View | pkg/cmd/users.go:338-356 | the report once completed, otherwise the selected count and the menu |
| Config.FocusNext | pkg/cmd/config.go:140-145 | tab or down moves the focus one input on, wrapping from the last input to the first |
| Config.FocusPrev | pkg/cmd/config.go:135-139 | shift+tab or up moves the focus one input back, wrapping from the first input to the last |
| Config.FocusNextPrev | pkg/cmd/config.go:133-145 | a down after an up, or an up after a down, restores the focus index |
| Config.TwoTabsCycle | pkg/cmd/config.go:140-145 | with two inputs every focus move changes the input, and two moves return to it |
| Config.ConfigModel.constructor | pkg/cmd/config.go:85-112 | the form holds the stored base URL (focused) and API key (blurred), focus index 0, not done, no error |
| Config.ConfigModel.Refocus | pkg/cmd/config.go:147-153 | exactly the input at the focus index is focused, the others are blurred, and no text changes |
| Config.ConfigModel.Update | pkg/cmd/config.go:125-192 | the focus index stays on an input with exactly that input focused; ctrl+c/esc quit; focus keys cycle with wrap-around; enter before the last input advances and saves nothing; enter on the last input saves base_url then api_key, stops at the first failure keeping the error and not done, and quits done when both succeed |
| Config.ConfigModel.View | pkg/cmd/config.go:205-212 | the success text when done, else the error when set, else the form: done takes precedence over an error |

## Left out

- Sending requests: the HTTP transport, URL joining, the Bearer authorization header, response reading and JSON decoding. The answer of every endpoint is a parameter, and request failures are one `RequestFailed` error.
- JSON encoding of the `AddUserToCourse` body: the body is the map value itself. The omitempty behaviour of the encoder is not modelled.
- The configuration store (viper, files, environment): a configuration write is a parameter that answers each (key, value) pair.
- The `assignments` and `courses` commands, `root.go` and `main.go`. They are not part of this model.
- Table.TableModel.Update: the bubbles table widget's own cursor movement is library code. Every message other than the handled keys is a `Navigate` to an in-range cursor.
- Users.FetchAllUsers: the server's pages are a finite sequence, and every page after it is answered as empty. A server that returns full pages forever, where the loop would not end, is not modelled.
- Users.UserActionModel.Update: the formatted result and details text is not modelled. The result is a value naming the user, the error or the removal.
- Users.MultiActionModel.RemoveSelected: the report text is a sequence of line values with the same content. The ❌/✅ formatting is not modelled.
- Config.ConfigModel.Update: text editing delegated to the bubbles text inputs is not modelled. Any other key leaves the inputs unchanged.
- Config.ConfigModel.View: the form is rendered as its title and the two inputs. Styling, prompts, character limits in drawing, and password echo are not modelled.
- Table.SelectedCountMatchesRows: does not cover the empty table with index 0 selected. There the view counts one selected item while the multi-selection callback receives no rows (Table.EmptyTableSelection). The users command never builds an empty table, since an empty listing opens none (Users.RunUsersList).
- Table.TableModel.View: rendering is the drawn record: title, count, columns, grid, cursor and help. Lipgloss styling and the unused `checks` slice are not modelled.
- Launching the nested action programs from the callbacks and printing their result. The callbacks are the `Callback` value Update returns, and the action models are built by their constructors.
- The bubbletea event loop: after a model returns tea.Quit it receives no more messages. This is the ghost `quit` flag, and each Update requires it unset.
