# RUMAD 2.0 course catalogue — a Dafny model

RUMAD 2.0 is a course-catalogue service for a university department. It has two parts.

- **API.** A Flask API over PostgreSQL manages six tables:
  - classes;
  - meetings (a day pattern and a time slot);
  - rooms;
  - sections (a class meeting in a room at a time, for a term);
  - requisites (one class requiring another);
  - users.

  Every handler runs a chain of early-return checks and then one write through a data-access object (DAO). It answers with a JSON body and an HTTP status.
- **Chatbot.** A Streamlit front end offers sign-up and log-in. Its chatbot reads a course code out of a question before retrieving syllabus text. The syllabus loader reads the course out of a PDF's file name and drops empty pages.

This project models the validation and write logic of every handler and DAO, and the text helpers of the chatbot. It proves what the checks guarantee about the stored data. The modules follow the program's layout.

- `Store`, the database:
  - a value `Catalog` with one map per table and the serial counters;
  - a class `Database` whose fields the DAO methods update in place;
  - `Valid()`: every key is below its serial counter;
  - `Referential()`: the foreign keys a section and a requisite hold all resolve.
- `ClassDao`, `MeetingDao`, `RoomDao`, `SectionDao`, `RequisiteDao` and `UserDao`, the DAOs:
  - each SELECT is a function over the table's value;
  - each INSERT, UPDATE or DELETE is a method that `modifies` the database and states its whole new state.
- `ClassHandler`, `MeetingHandler`, `RoomHandler`, `SectionHandler`, `RequisiteHandler`, `UserHandler` and `StatsHandler`, the handlers:
  - each check chain is a function returning `Guard`. `Stop(response)` is the first failing check's reply; `Go(row)` is the row the write stores;
  - each endpoint is a method that runs its guard and then the DAO write;
  - lemmas relate the guards to the invariants they protect: no two sections double-booked in a room, unique name+code pairs, unique places, unique ccodes, and no self-requisites or two-cycles.
- `SignIn`, `ChatOllama`, `FileHandler` and `CourseCode`, the Streamlit validators and the chatbot's text helpers.
- `Common`, `PyText`, `Json`, `Sql` and `Http`, the host semantics the handlers rely on:
  - Python's `strip`, `int()`, `str()`, `==` and `len`;
  - PostgreSQL's coercion of parameters into `integer`, `text` and `boolean` columns;
  - Flask's 500 for an uncaught exception.

Requests are JSON values (`Json`). A Python exception a handler does not catch becomes `Uncaught(exception)`, which Flask answers with 500. A "fetch one row" query is modelled as returning the least matching id. `gensalt()` is a parameter of every write that hashes a password.

## Model

| member | source | states |
|---|---|---|
| Store.CheckpwHashpw | API/dao/user.py:97-116 | a bcrypt hash checks against exactly the password it was made from |
| Store.ClassWriteKeepsReferential | API/dao/classes.py:54-96 | storing or overwriting a class keeps every section and requisite key resolved |
| ClassDao.GetAllClasses | API/dao/classes.py:17-28 | every class row exactly once, in increasing cid order (ORDER BY cid) |
| ClassDao.ClassByNameAndCode | API/dao/classes.py:42-52 | a class with that name and code, or None exactly when no class has both |
| ClassDao.CourseIdByCode | API/dao/classes.py:135-146 | the cid of the same row the name+code lookup finds, None in the same cases |
| ClassDao.LookupOfUnique | API/dao/classes.py:42-52 | with unique name+code pairs the lookup finds the class holding the pair, whichever row the query returns |
| ClassDao.FreshPairKeepsUnique | API/dao/classes.py:54-73 | a new class whose name+code no class has keeps pairs unique |
| ClassDao.InsertClass | API/dao/classes.py:54-73 | one new row under the next serial id; keeps validity, foreign keys, and unique pairs when the pair is new |
| ClassDao.UpdateClass | API/dao/classes.py:75-96 | -1 and no change for an absent cid, else the row is overwritten and cid returned |
| ClassDao.DeleteClass | API/dao/classes.py:98-134 | -2 while a section or requisite uses the class, -1 when absent, else the row is removed; foreign keys stay resolved |
| ClassHandler.IsValidTerm | API/handlers/classes.py:18-24 | `is_valid_term` on text; ClassHandler.TermMeaning states what it means |
| ClassHandler.TermMeaning | API/handlers/classes.py:18-24 | a term is valid iff it is "According to Demand" or every comma piece strips to a listed semester |
| ClassHandler.InTermParts | API/handlers/classes.py:18-24 | each stripped piece of the split is among the term's parts |
| ClassHandler.PieceOf | API/handlers/classes.py:18-24 | each part of a term comes from some piece of the split |
| ClassHandler.EmptyTermRejected | API/handlers/classes.py:18-24 | the empty term is invalid |
| ClassHandler.TermListAccepted | API/handlers/classes.py:18-24 | any non-empty comma-joined list of valid semesters is a valid term |
| ClassHandler.TermVerdict | API/handlers/classes.py:87-88 | a non-text term fails with an exception; a text term is judged by the term rule |
| ClassHandler.ClassColumns | API/dao/classes.py:54-73 | the row PostgreSQL stores from the seven values, or None when a value fits no column; a list or object in a text column also gives None |
| ClassHandler.ClassValueRules | API/handlers/classes.py:80-95 | what passes has a 4-character name, a 4-digit code, a valid term, non-negative credits and listed years |
| ClassHandler.ClassScheduleRules | API/handlers/classes.py:87-95 | what passes has a valid text term, non-negative integer credits and listed years; a non-text term raises |
| ClassHandler.InsertClassGuard | API/handlers/classes.py:42-96 | 400 for missing fields, 400 for a blank name or code; what passes meets every rule and no class has its name+code |
| ClassHandler.DuplicateCheckedFirst | API/handlers/classes.py:72-79 | an existing name+code is reported before any length or value check |
| ClassHandler.Merged | API/handlers/classes.py:120-126 | the values the update works with hold every field, taking each sent one from the request |
| ClassHandler.FieldErrors | API/handlers/classes.py:129-153 | no error means every field sent meets its rule |
| ClassHandler.NameCodeErrors | API/handlers/classes.py:129-137 | no error means a sent name has length 4 and a sent code is 4 digits |
| ClassHandler.ScheduleErrors | API/handlers/classes.py:138-145 | no error means a sent term, credits and years meet their rules |
| ClassHandler.UpdateClassGuard | API/handlers/classes.py:111-163 | 404 for an absent class; what passes meets the field rules, stores the merged values, and clashes with no other class |
| ClassHandler.UpdateStores | API/handlers/classes.py:120-180 | fields not sent keep the stored value; fields sent are stored as sent and meet their rule |
| ClassHandler.DescriptionOnlyUpdate | API/handlers/classes.py:111-180 | changing only the description of a stored class is accepted and changes only that |
| ClassHandler.InsertedClassKeepsInvariants | API/handlers/classes.py:96-109 | the inserted row keeps foreign keys and unique name+code pairs |
| ClassHandler.UpdateKeepsUnique | API/handlers/classes.py:156-180 | an accepted update keeps name+code pairs unique |
| ClassHandler.ClassJson | API/handlers/classes.py:6-16 | `mapClass`: the eight keys, the new cid, and every other field as sent |
| ClassHandler.InsertClass | API/handlers/classes.py:42-109 | the guard's refusal with no change, or one new row and 201; keeps foreign keys and unique pairs |
| ClassHandler.CreateClass | API/handlers/classes.py:96-109 | the write after the guard: the refusal unchanged, else insert and 201 |
| ClassHandler.UpdateClass | API/handlers/classes.py:111-180 | the guard's refusal with no change, or the row overwritten and 200; keeps both invariants |
| ClassHandler.DeleteClass | API/handlers/classes.py:182-191 | 409 while referenced, 404 when absent, else the row is removed with 204; keeps both invariants |
| MeetingDao.GetAllMeetings | API/dao/meeting.py:16-27 | every meeting exactly once, in increasing mid order |
| MeetingDao.MeetingByCcode | API/dao/meeting.py:41-51 | a meeting with that ccode, or None exactly when none has it |
| MeetingDao.RemoveUnreferenced | API/dao/meeting.py:76-100 | removing a meeting no section uses keeps sections free of double booking |
| MeetingDao.InsertMeeting | API/dao/meeting.py:53-63 | one new row under the next serial id |
| MeetingDao.UpdateMeeting | API/dao/meeting.py:65-74 | the row is overwritten when present; mid returned |
| MeetingDao.DeleteMeeting | API/dao/meeting.py:76-100 | -2 while a section uses it, -1 when absent, else removed; keeps foreign keys and no double booking |
| MeetingHandler.BeforeIsEarlierMinute | API/handlers/meeting.py:88-89 | two clock readings compare as their minutes since midnight |
| MeetingHandler.ParseMinute | API/handlers/meeting.py:57-63 | a parsed minute lies in 0..59 |
| MeetingHandler.StrptimeHM | API/handlers/meeting.py:57-63 | a parsed `%H:%M` gives an hour in 0..23 and a minute in 0..59 |
| MeetingHandler.TwoDigits | API/handlers/meeting.py:7-14 | two digits whose value is the number |
| MeetingHandler.StrptimeOfRendering | API/handlers/meeting.py:57-63 | "HH:MM" parses back to the hour and minute it renders |
| MeetingHandler.StrptimeOfShortHour | API/handlers/meeting.py:57-63 | a one-digit hour "H:MM" parses too |
| MeetingHandler.ParseTime | API/handlers/meeting.py:57-63 | a non-text value raises TypeError; text parses iff strptime accepts it |
| MeetingHandler.ValidateMeetingTime | API/handlers/meeting.py:16-39 | only an MJ meeting can be refused, always with the window message |
| MeetingHandler.WindowsOfMJ | API/handlers/meeting.py:16-39 | an MJ meeting passes iff it lies within 7:30-10:15 or 12:30-19:45; LWV always passes |
| MeetingHandler.MeetingChecks | API/handlers/meeting.py:79-99 | what passes has cdays MJ or LWV, start before end, MJ inside a window, times as parsed, and its ccode free; a list or dict ccode is answered 500 |
| MeetingHandler.MeetingTimes | API/handlers/meeting.py:79-93 | the day pattern, the two times, their order and the MJ windows, in the source's order |
| MeetingHandler.MinuteOfParsed | API/handlers/meeting.py:57-63 | a parsed time is recovered from its minute of the day |
| MeetingHandler.InsertMeetingGuard | API/handlers/meeting.py:65-99 | 400 for missing fields, else the shared checks with no meeting exempt |
| MeetingHandler.UpdateMeetingGuard | API/handlers/meeting.py:107-146 | 404 before the fields are looked at, then 400 for missing fields, then the checks exempting the meeting itself |
| MeetingHandler.HttpDate | API/handlers/meeting.py:7-14 | Flask's date text for a `time` column: the fixed date 1 January 1900 and GMT around the clock text |
| MeetingHandler.MeetingJson | API/handlers/meeting.py:7-14 | `mapMeeting`: the five keys, the mid, the ccode and cdays as given |
| MeetingHandler.MeetingReplyTimes | API/handlers/meeting.py:7-14 | the reply's two times have clock text that parses back to the stored minutes |
| MeetingHandler.HttpDateRoundTrip | API/handlers/meeting.py:101-105 | the time in the reply's date text parses back to the stored minute |
| MeetingHandler.LookupKeyIsStored | API/handlers/meeting.py:95-101 | for a non-boolean ccode the lookup key `str(ccode)` is the text stored |
| MeetingHandler.InsertGuardKeepsInvariants | API/handlers/meeting.py:65-105 | an accepted meeting keeps foreign keys, no double booking, and unique non-boolean ccodes |
| MeetingHandler.FreshMeetingKeepsInvariants | API/dao/meeting.py:53-63 | a row under the next id keeps foreign keys and no double booking, and unique ccodes when its ccode is new |
| MeetingHandler.UpdateGuardKeepsInvariants | API/handlers/meeting.py:141-152 | an accepted update keeps foreign keys and unique non-boolean ccodes |
| MeetingHandler.MeetingUpdateCanDoubleBook | API/handlers/meeting.py:107-152 | moving a meeting's time can double-book two sections, as no section is rechecked |
| MeetingHandler.InsertMeeting | API/handlers/meeting.py:65-105 | refusal with no change, or one new row and 201; keeps foreign keys, no double booking, unique ccodes |
| MeetingHandler.CreateMeeting | API/handlers/meeting.py:101-105 | the write after the guard: the refusal unchanged, else insert and 201 |
| MeetingHandler.UpdateMeeting | API/handlers/meeting.py:107-152 | refusal with no change, or the row overwritten and 200; keeps foreign keys and unique ccodes |
| MeetingHandler.DeleteMeeting | API/handlers/meeting.py:154-163 | 409 while referenced, 404 when absent, else removed with 204; keeps all three invariants |
| RoomDao.GetAllRooms | API/dao/room.py:14-23 | every room exactly once, in increasing rid order |
| RoomDao.RoomByBuildingNumber | API/dao/room.py:35-45 | a room at that building and number, or None exactly when none is there |
| RoomDao.LookupOfUnique | API/dao/room.py:35-45 | with unique places the lookup finds the room at a stored place |
| RoomDao.PlaceWriteKeepsUnique | API/dao/room.py:46-66 | writing a row whose place is free or its own keeps places unique |
| RoomDao.InsertRoom | API/dao/room.py:46-56 | one new row under the next serial id |
| RoomDao.UpdateRoom | API/dao/room.py:57-66 | the row is overwritten when present; rid returned |
| RoomDao.DeleteRoom | API/dao/room.py:67-86 | -2 while a section uses it, -1 when absent, else removed; keeps foreign keys |
| RoomHandler.HasRoomFields | API/handlers/room.py:13-16 | no missing field means all three are present |
| RoomHandler.RoomValues | API/handlers/room.py:17-31 | passes iff capacity is a non-negative `int()` and both names are non-blank text; names are stored stripped |
| RoomHandler.RoomPayloadCheck | API/handlers/room.py:12-31 | the first missing field in order is reported; otherwise the value checks |
| RoomHandler.MissingFieldFirst | API/handlers/room.py:13-16 | a payload lacking a field is refused, naming the first missing one |
| RoomHandler.RoomPayloadOfComplete | API/handlers/room.py:17-31 | a complete payload is judged by its values alone |
| RoomHandler.RowValues | API/handlers/room.py:17-31 | a stored row's own values pass the value checks unchanged |
| RoomHandler.RowRevalidates | API/handlers/room.py:12-31 | a trimmed row sent back passes validation as itself |
| RoomHandler.StoredRoomRevalidates | API/handlers/room.py:12-31 | validating the accepted room once more changes nothing (idempotence) |
| RoomHandler.ValidateRoomPayload | API/handlers/room.py:12-31 | the loop over the required fields computes the same verdict as the check |
| RoomHandler.InsertRoomGuard | API/handlers/room.py:46-57 | validation errors as they are, 409 for a taken place; what passes is free and fits the column |
| RoomHandler.UpdateRoomGuard | API/handlers/room.py:62-76 | 404 first, then validation; what passes clashes with no other room |
| RoomHandler.ResaveIsNoClash | API/handlers/room.py:73-75 | re-saving a room at its own place is never refused as a clash |
| RoomHandler.WritesKeepUnique | API/handlers/room.py:46-80 | accepted inserts and updates keep places unique |
| RoomHandler.RoomUpdateCanOverfill | API/handlers/room.py:62-80 | shrinking a room can leave a section larger than its room |
| RoomHandler.RoomJson | API/handlers/room.py:5-11 | `mapRoom`: the four keys and the rid |
| RoomHandler.RoomReplyRevalidates | API/handlers/room.py:5-31 | a room's reply sent back as an update body validates to the same room |
| RoomHandler.InsertRoom | API/handlers/room.py:46-61 | refusal with no change, or one new row and 201; keeps foreign keys and unique places |
| RoomHandler.UpdateRoom | API/handlers/room.py:62-80 | refusal with no change, or the row overwritten and 200; keeps both invariants |
| RoomHandler.DeleteRoom | API/handlers/room.py:83-92 | 409 while referenced, 404 when absent, else removed with 204; keeps both invariants |
| SectionDao.HasScheduleConflict | API/dao/section.py:127-143 | a section matching the WHERE clause, or None exactly when no section matches |
| SectionDao.SomeHit | API/dao/section.py:127-143 | a matching section gives the query a row to return |
| SectionDao.ConflictIsClash | API/dao/section.py:134-138 | the WHERE clause holds iff the section is not excluded and the two bookings clash |
| SectionDao.ClashSymmetric | API/dao/section.py:134-138 | a clash is symmetric |
| SectionDao.TouchingIsNoConflict | API/dao/section.py:134-138 | meetings that only touch at an end never conflict |
| SectionDao.ExcludedNeverReturned | API/dao/section.py:134-138 | the excluded section is never reported |
| SectionDao.ConflictIgnoresTerm | API/dao/section.py:134-138 | only rooms and meetings matter, not semesters or years |
| SectionDao.InsertKeepsNoDoubleBooking | API/dao/section.py:127-143 | a new section with no conflict keeps the table free of double booking |
| SectionDao.UpdateKeepsNoDoubleBooking | API/dao/section.py:127-143 | an update with no conflict, excluding itself, keeps it free of double booking |
| SectionDao.ResaveConflictsOnlyWithOthers | API/dao/section.py:134-138 | a section re-saved with its own room and meeting conflicts with nothing |
| SectionDao.InsertSection | API/dao/section.py:40-50 | one new row under the next serial id |
| SectionDao.UpdateSection | API/dao/section.py:52-60 | the row is overwritten when present; sid returned |
| SectionDao.DeleteSection | API/dao/section.py:62-77 | -1 when absent, else removed |
| SectionHandler.SectionJson | API/handlers/section.py:5-14 | `mapSection`: the seven keys and the sid |
| SectionHandler.SectionChecks | API/handlers/section.py:54-77 | what passes names an existing class, meeting and room, fits the room, has a listed term and four-digit years, and conflicts with nothing |
| SectionHandler.InsertSectionGuard | API/handlers/section.py:32-77 | 400 for missing fields, else the shared checks with nothing excluded |
| SectionHandler.UpdateSectionGuard | API/handlers/section.py:89-138 | "BAD REQUEST" for missing fields, 404 for an absent section, else the checks excluding itself |
| SectionHandler.ForeignKeyOrder | API/handlers/section.py:54-59 | the foreign keys are reported in the order cid, mid, roomid |
| SectionHandler.CapacityOutOfRange | API/handlers/section.py:62-64 | a capacity below 0 or above the room's is refused with 400 |
| SectionHandler.ConflictAnswers409 | API/handlers/section.py:74-77 | a conflict is answered 409, naming the conflicting section |
| SectionHandler.ResaveNoSelfConflict | API/handlers/section.py:135-138 | re-saving a section in its own room and meeting is never refused as a conflict |
| SectionHandler.InsertGuardKeepsInvariants | API/handlers/section.py:32-87 | an accepted section keeps no double booking and foreign keys |
| SectionHandler.UpdateGuardKeepsInvariants | API/handlers/section.py:89-148 | an accepted update keeps no double booking and foreign keys |
| SectionHandler.InsertSection | API/handlers/section.py:32-87 | refusal with no change, or one new row and 201; keeps both invariants |
| SectionHandler.UpdateSection | API/handlers/section.py:89-148 | refusal with no change, or the row overwritten and 200; keeps both invariants |
| SectionHandler.DeleteSection | API/handlers/section.py:150-156 | 404 when absent, else removed with 204; keeps both invariants |
| RequisiteDao.GetAllRequisites | API/dao/requisite.py:19-28 | every requisite exactly once, ordered by classid |
| RequisiteDao.PairRows | API/dao/requisite.py:19-28 | the rows of the listed pairs, in that order |
| RequisiteDao.PairRowsMembers | API/dao/requisite.py:19-28 | listing every pair gives every row exactly once |
| RequisiteDao.PairExists | API/dao/requisite.py:81-90 | a row iff the pair is stored; a key PostgreSQL rejects raises |
| RequisiteDao.TwoCycleExist | API/dao/requisite.py:92-102 | a row iff the mirrored pair is stored |
| RequisiteDao.InsertRequisite | API/dao/requisite.py:43-53 | the pair is stored and returned; keys that exist keep foreign keys resolved |
| RequisiteDao.DeleteRequisite | API/dao/requisite.py:55-65 | the pair is removed and classid returned, or None when absent; keeps every invariant |
| RequisiteHandler.RequisiteJson | API/handlers/requisite.py:5-10 | `mapRequisite`: the three keys with the stored pair and flag |
| RequisiteHandler.ClassKeys | API/handlers/requisite.py:48-54 | 404 for the missing class, classid first; otherwise the two ids PostgreSQL matched |
| RequisiteHandler.PairRules | API/handlers/requisite.py:56-69 | self-requisite, duplicate and two-cycle refusals in this order; what passes is none of them |
| RequisiteHandler.ColumnOfParam | API/dao/requisite.py:43-53 | a key stored to the integer column is the id it matched |
| RequisiteHandler.InsertGuardAsWritten | API/handlers/requisite.py:33-69 | 400 for missing fields, the 404s of the class lookups as they are; what passes differs as JSON values, names two existing classes stored in neither direction, and stores the ids PostgreSQL matched |
| RequisiteHandler.MixedRequestKeys | API/handlers/requisite.py:48-57 | a class id sent once as text and once as a number matches the same class, yet the two values differ |
| RequisiteHandler.SelfLoopAsWritten | API/handlers/requisite.py:56-58 | as written, a class can be stored as its own prerequisite |
| RequisiteHandler.InsertRequisiteGuard | API/handlers/requisite.py:33-69 | corrected: the self-check compares the matched ids; what passes is two distinct existing classes stored in neither direction |
| RequisiteHandler.SelfLoopRefused | API/handlers/requisite.py:56-58 | corrected: the corrected guard refuses that request with 409 |
| RequisiteHandler.GuardsAgreeOnIntegers | API/handlers/requisite.py:56-58 | for integer ids the two guards agree |
| RequisiteHandler.InsertGuardKeepsShape | API/handlers/requisite.py:56-74 | corrected: a requisite the corrected guard accepts keeps no self-requisite and no two-cycle, adds one row and keeps foreign keys |
| RequisiteHandler.FreshPairKeepsShape | API/dao/requisite.py:43-53 | a new pair of two distinct classes keeps both shape invariants |
| RequisiteHandler.ThreeCycleAccepted | API/handlers/requisite.py:64-66 | longer cycles are not looked for: a three-cycle is accepted |
| RequisiteHandler.SelfLoopNeedsMixedIds | API/handlers/requisite.py:56-58 | as written, two JSON numbers that pass are two different classes, so only mixed-type ids can store a self-requisite |
| RequisiteHandler.AsWrittenKeepsShape | API/handlers/requisite.py:56-74 | as written, an accepted requisite keeps foreign keys, and keeps no self-requisite and no two-cycle whenever its two ids differ |
| RequisiteHandler.InsertRequisite | API/handlers/requisite.py:33-74 | as written: the refusal with no change, or the pair stored and 201; keeps foreign keys; keeps no self-requisite and no two-cycle when the stored ids differ, in particular for two JSON numbers |
| RequisiteHandler.InsertRequisiteCorrected | API/handlers/requisite.py:33-74 | corrected: the refusal with no change, or the pair stored and 201; keeps foreign keys and both shape invariants |
| RequisiteHandler.DeleteRequisite | API/handlers/requisite.py:77-98 | 404 for a missing class or pair in that order, else removed with 204; keeps every invariant |
| UserDao.UserNamed | API/dao/user.py:40-50 | a user with that username, or None exactly when none has it |
| UserDao.UserByUsername | API/dao/user.py:40-50 | text is looked up, NULL matches nothing, other values raise |
| UserDao.VerifyUser | API/dao/user.py:97-116 | None for an unknown user, else the uid when the password checks and -1 when not; a non-text password raises |
| UserDao.VerifyUserOfStored | API/dao/user.py:97-116 | with unique usernames a stored user is verified exactly by their own password |
| UserDao.InsertUser | API/dao/user.py:52-65 | one new row holding the hash of the password |
| UserDao.UpdateUser | API/dao/user.py:67-79 | the name and a fresh hash overwrite the row when present |
| UserDao.DeleteUser | API/dao/user.py:81-95 | -1 when absent, else removed and uid returned |
| UserHandler.UserJson | API/handlers/user.py:5-10 | `mapUser`: the three keys, uid and username; the password field carries the hash's salt, a stand-in for the bcrypt text the source returns |
| UserHandler.InsertUserGuard | API/handlers/user.py:32-46 | 400 for missing fields, 409 for a taken username; what passes is a new name with its hash |
| UserHandler.FreshNameAccepted | API/handlers/user.py:32-46 | a new name is accepted and its stored hash checks against the password |
| UserHandler.InsertKeepsUnique | API/handlers/user.py:41-46 | an accepted sign-up keeps usernames unique |
| UserHandler.UpdateUserGuard | API/handlers/user.py:48-63 | 400 for missing fields, 404 for an absent user; what passes stores the name and a fresh hash |
| UserHandler.UpdateCanDuplicateName | API/handlers/user.py:48-63 | an update can give a user a name another user holds |
| UserHandler.InsertUser | API/handlers/user.py:32-46 | refusal with no change, or one new row and 201; keeps usernames unique |
| UserHandler.UpdateUser | API/handlers/user.py:48-63 | refusal with no change, or the row overwritten and 200 |
| UserHandler.DeleteUser | API/handlers/user.py:65-72 | 404 when absent, else removed with 204; keeps usernames unique |
| UserHandler.LoginAsWritten | API/handlers/user.py:74-87 | as written, an unknown user and a wrong password both end in a 500 |
| UserHandler.WrongPasswordAsWritten | API/handlers/user.py:84-85 | a stored user with a wrong password gets 500 as written |
| UserHandler.LoginReply | API/handlers/user.py:74-87 | corrected: 404 for an unknown user, 401 for a wrong password, 200 only with a stored uid |
| UserHandler.LoginOfStored | API/handlers/user.py:74-87 | corrected: a stored user gets 200 with their uid exactly for their own password, else 401 |
| SignIn.PatternWithoutNewline | Chatbot/Navigation/sign_in.py:66-67 | without a newline the username pattern means non-empty word characters only |
| SignIn.PatternAcceptsFinalNewline | Chatbot/Navigation/sign_in.py:66-67 | `$` also lets a final newline through |
| SignIn.ValidateSignup | Chatbot/Navigation/sign_in.py:62-78 | accepted iff the name is long enough, matches, is free, and the password is long enough and repeated; the refusals come in this order |
| SignIn.PasswordRulesAfterName | Chatbot/Navigation/sign_in.py:72-76 | once the name passes, a short password and then a mismatch are refused |
| SignIn.ValidateLogin | Chatbot/Navigation/sign_in.py:81-90 | an unknown name is refused; success says "OK" |
| SignIn.LoginOfStoredUser | Chatbot/Navigation/sign_in.py:81-90 | a stored user logs in exactly with their own password |
| SignIn.SignupThenLogin | Chatbot/Navigation/sign_in.py:62-90 | a sign-up that passes, once stored, logs in with the same password |
| StatsHandler.SectionsByDay | API/handlers/stats.py:6-22 | one entry per day in L M W J V S D order, counting that letter over all rows; the counts sum to the recognised letters |
| StatsHandler.DayReport | API/handlers/stats.py:21-22 | one `{"day", "sections"}` object per entry, in the entries' order |
| StatsHandler.CountLetters | API/handlers/stats.py:16-19 | each counter grows by the occurrences of its letter; no counter is added |
| StatsHandler.DayOccurrences | API/handlers/stats.py:16-19 | the seven letters' occurrences in a string are its day letters |
| StatsHandler.CountsTotal | API/handlers/stats.py:14-21 | the seven counts add up to the recognised letters; other characters are ignored |
| StatsHandler.ReportTotal | API/handlers/stats.py:21-22 | the report sums to the recognised letters |
| StatsHandler.OneMoreRow | API/handlers/stats.py:16-19 | a row adds its letters to the days they name and nothing else |
| StatsHandler.NoOccurrences | API/handlers/stats.py:17-19 | a letter absent from a string counts zero |
| StatsHandler.TopDepartmentsLimit | API/handlers/stats.py:28-38 | limit 1 when absent, 400 for non-integer text, 400 outside 1..5 |
| StatsHandler.TypedLimit | API/handlers/stats.py:49-49 | `type=int` falls back to 5 for text `int()` rejects |
| StatsHandler.RankedQueryGuard | API/handlers/stats.py:46-55 | passes iff the limit is in 1..10 and the semester is absent, empty or listed; the limit check comes first |
| StatsHandler.MultiRoomGuard | API/handlers/stats.py:67-79 | the same two checks, then an order that lower-cases to asc or desc, default desc |
| StatsHandler.DefaultOrderAccepted | API/handlers/stats.py:71-78 | the default order passes |
| StatsHandler.OrderCasing | API/handlers/stats.py:78-79 | any casing of asc and desc passes |
| StatsHandler.NonIntegerLimit | API/handlers/stats.py:31-52 | "abc" is refused by the top-departments report and silently defaulted by the others |
| ChatOllama.ExtractCourse | Chatbot/llm/chatollama.py:29-33 | none iff nowhere matches; otherwise the leftmost match's department and four digits |
| ChatOllama.NamedCourse | Chatbot/llm/chatollama.py:29-33 | a question opening with a department in any case, an optional space and four digits names that course |
| ChatOllama.CoursePrefix | Chatbot/llm/chatollama.py:39-44 | "dept code: " exactly when a course is named, else nothing |
| ChatOllama.EnhancedQuery | Chatbot/llm/chatollama.py:39-66 | the prefix, the question, then the textbook suffix before the grading suffix, each only when asked for |
| ChatOllama.EnhanceQuery | Chatbot/llm/chatollama.py:39-66 | the in-place steps build the enhanced query |
| ChatOllama.SuffixesDigitFree | Chatbot/llm/chatollama.py:47-66 | the added suffixes hold no digit |
| ChatOllama.KeepsFoundCourse | Chatbot/llm/chatollama.py:41-44 | the prefix and any tail keep the course found |
| ChatOllama.PrefixedCourse | Chatbot/llm/chatollama.py:43-44 | the prefix names its own course, whatever follows |
| ChatOllama.KeepsNoCourse | Chatbot/llm/chatollama.py:47-66 | a digit-free tail adds no course to a question without one |
| ChatOllama.EnhancedKeepsCourse | Chatbot/llm/chatollama.py:39-66 | the enhanced query names the same course as the question, or none |
| FileHandler.ExtractDeptCode | Chatbot/llm/filehandler.py:21-25 | none iff nowhere matches; otherwise the leftmost match's department and four digits |
| FileHandler.NamedFile | Chatbot/llm/filehandler.py:21-25 | a name opening with a department, an optional - or _ and four digits yields that course |
| FileHandler.CaseInsensitive | Chatbot/llm/filehandler.py:21-25 | the casing of a file name does not matter |
| FileHandler.DoubleSeparator | Chatbot/llm/filehandler.py:21-25 | two separators match nothing |
| FileHandler.DeleteEmptyPages | Chatbot/llm/filehandler.py:28-29 | exactly the pages whose stripped text is non-empty, never more pages |
| FileHandler.DeleteEmptyPagesAppend | Chatbot/llm/filehandler.py:28-29 | filtering distributes over concatenation, so page order is kept |
| FileHandler.DeleteEmptyPagesIdempotent | Chatbot/llm/filehandler.py:28-29 | a second pass removes nothing |
| FileHandler.NoBlankPages | Chatbot/llm/filehandler.py:28-29 | kept pages are exactly those that are not whitespace only |
| CourseCode.SearchFrom | Chatbot/llm/chatollama.py:30-30 | `re.search`: the leftmost match at or after the position, None iff none matches |
| CourseCode.CodeAt | Chatbot/llm/chatollama.py:30-32 | group 2 is four digits |
| CourseCode.MatchAtStart | Chatbot/llm/filehandler.py:21-25 | a department, an allowed separator and four digits match at the start |
| CourseCode.DigitFreeTail | Chatbot/llm/chatollama.py:47-66 | appending digit-free text neither creates nor changes a match |
| CourseCode.SameMatchesSameSearch | Chatbot/llm/chatollama.py:30-30 | the search depends only on where the pattern matches |
| Json.FirstMissing | API/handlers/room.py:13-16 | the first listed key the payload lacks, None iff it has all |
| Json.PyIntCall | API/handlers/room.py:20-25 | `int(x)`: integers as they are, text by the integer parser, other values raise |
| Json.PyLen | API/handlers/classes.py:80-81 | `len` is defined on text, lists and objects, and on text is its length |
| Json.PyStr | API/handlers/meeting.py:96-96 | `str(x)` is defined on every scalar and on text is the text; lists and dicts give None, since their repr is not modelled |
| Json.PyIntCallOfRendering | API/handlers/room.py:20-21 | `int(str(i)) == i` |
| PyText.PyIntParse | API/handlers/stats.py:31-34 | `int(s)` on text; PyText.PyIntParseIntToString is its round trip and StatsHandler.NotANumber a refusal |
| PyText.PyIntParseIntToString | API/handlers/stats.py:31-32 | `int(str(i)) == i` for every integer |
| PyText.StripEmptyIffBlank | API/handlers/classes.py:61-69 | a text strips to empty iff it is whitespace only |
| PyText.Strip | API/handlers/room.py:27-31 | `strip()` removes only leading and trailing whitespace and leaves none at either end |
| PyText.Split | API/handlers/classes.py:23-23 | `split(",")` gives at least one piece, no piece holds a comma, and joining them gives the text back |
| PyText.SplitOfJoin | API/handlers/classes.py:23-23 | splitting comma-joined pieces that hold no comma gives exactly those pieces |
| Sql.TextParam | API/dao/room.py:35-45 | only text binds as text, as itself; NULL stays NULL; other values are rejected |
| Sql.IntColumn | API/dao/section.py:40-50 | a value stored to an `integer` column is a 32-bit integer; integers in range are stored as they are; booleans, NULL and containers are rejected |
| Sql.BoolColumn | API/dao/requisite.py:43-53 | a boolean is stored as it is; integers, NULL and containers are rejected |
| Sql.IntParam | API/dao/requisite.py:69-79 | integers bind as they are, decimal text is coerced, NULL stays NULL, other values are rejected |
| Sql.TextColumn | API/dao/classes.py:54-73 | text is stored as it is, integers as their decimal text; NULL gives None, and so do lists and objects, whose cast to text is not modelled |
| Sql.IdFetch | API/dao/requisite.py:69-79 | a row iff the key binds to an id in the table; a rejected key raises |
| Sql.IdFetchOfText | API/dao/section.py:91-101 | an id and its decimal text find the same row |
| Sql.PgIntLiteral | API/dao/requisite.py:69-79 | PostgreSQL's reading of text as `integer`: only 32-bit values come out |
| Sql.PgBoolLiteral | API/dao/requisite.py:43-53 | PostgreSQL's reading of text as `boolean`: a value only for non-blank text |
| Sql.PgIntLiteralOfRendering | API/dao/requisite.py:69-79 | PostgreSQL reads back the decimal text of any 32-bit integer |

## Left out

- Flask routing, `jsonify` rendering and `request.args` parsing. Handlers take the decoded JSON body, or the query values, as arguments. Ids in URLs are `nat`, as Flask's `<int:...>` converter gives.
- psycopg2 connections, transactions and commits. Concurrency and the check-then-act races between a lookup and the write after it are also out, since the model runs one request at a time.
- The GET-by-id handlers and their DAO queries. They are plain lookups that the modelled lookups cover.
- The statistics DAO queries (`API/dao/stats.py`), the float averages and the utilisation ratios. Their rows are inputs to `StatsHandler.SectionsByDay`, and the other reports only have their parameter checks modelled.
- The syllabus chunk handlers, embeddings, the language model, prompt building, `preprocess_syllabus`, `process_pdf` and `process_all_pdfs`. These are machine-learning services and file I/O.
- The Streamlit pages and the reload scripts. They are UI and deployment.
- Non-ASCII text: `upper`, `lower`, `\s`, `\d` and `isdigit` are modelled on ASCII only.
- PostgreSQL integer literals with underscores, hexadecimal or octal prefixes are not accepted by the model. They are rejected the same way other text is.
- Table constraints: the schema file is not part of this model. Only the (classid, reqid) key is assumed unique, and every column is assumed NOT NULL wherever a stored row is read back.
- Serial ids beyond 32 bits: the counters are unbounded.
- The bcrypt digest and its 72-byte limit. A hash keeps its salt and the password it checks against; `gensalt()` is a parameter.
- Request bodies that are not JSON objects.
- Json: JSON numbers with a fraction or exponent (`7.9`, `5.0`) are not modelled. The source truncates them with `int()` (room capacity) and PostgreSQL compares them numerically (`5.0` finds class 5).
- Json.PyStr, Sql.TextColumn, MeetingHandler.MeetingChecks, ClassHandler.ClassColumns: a list or dict in a text field is modelled as a 500 error. The source looks up `str()` of it, its Python repr. psycopg2 binds a list as an array, which PostgreSQL's cast stores in the text column as text. So the source can answer 201, or 400 for a duplicate ccode, where the model answers 500.
- RequisiteHandler.InsertRequisite: keeps no self-requisite and no two-cycle only when the stored ids differ. As written, a self-requisite can be stored from ids of mixed JSON types.
- The 500 replies for a DAO that returns None after a write that cannot fail in the model. They are unreachable here.
- The class DAO's -1 and -2 results that the handler answers only after its own checks have already ruled them out.
- The body of a 204 reply, which Flask drops; the model keeps what the handler passes.
- The requisite table is keyed by the pair, so two rows for one pair cannot be represented.
- RequisiteDao.GetAllRequisites: orders rows by classid only, since ORDER BY classid leaves the order of one class's rows to the database.
- MeetingHandler.InsertMeeting: keeps ccodes unique only for a non-boolean ccode. For a boolean, `str(True)` is "True" while the column stores "true", so the lookup misses a stored duplicate.
- MeetingHandler.UpdateMeeting: keeps ccodes unique only for a non-boolean ccode, for the same reason.
- The "book" keyword in the textbook list is redundant next to "textbook", but it changes nothing.

## Findings

| source | as written | input that shows it | evidently intended | confidence | as-written member | corrected member |
|---|---|---|---|---|---|---|
| API/handlers/requisite.py:57 | `classid == reqid` compares the raw JSON values, while PostgreSQL coerces the text "5" to the integer 5 | `{"classid": "5", "reqid": 5, "prereq": true}` for an existing class 5 | a class is never its own prerequisite: compare the ids the database matched | not executed | RequisiteHandler.SelfLoopAsWritten | RequisiteHandler.SelfLoopRefused |
| API/handlers/user.py:83 | the failure replies are set literals `{"User not found"}` and `{"Invalid password"}`, which Flask cannot turn into a response (TypeError, 500) | a login with an unknown username, or with a wrong password | 404 "User not found" and 401 "Invalid password" | not executed | UserHandler.WrongPasswordAsWritten | UserHandler.LoginOfStored |
