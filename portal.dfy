/**
 * The student portal (script.js): the roster is loaded through a five-minute
 * cache in browser storage, a saved session survives a page reload for thirty
 * minutes, and logging in looks a student up by identifier and saves the
 * session built from the matching roster row.
 *
 * The clock (`Date.now()`) and the outcome of the remote fetch are inputs
 * of the operations; browser storage is four fields of the `Portal` object.
 */
module StudentPortal {
  import opened Options
  import opened JsString
  import opened JsNumber
  import opened Csv

  /** How long a cached roster is reused: 5 minutes, in milliseconds. */
  const RosterTtl: int := 5 * 60 * 1000

  /** How long a saved session survives: 30 minutes, in milliseconds. */
  const SessionTtl: int := 30 * 60 * 1000

  /** The record `login` builds from a roster row and stores as `currentStudent`. */
  datatype Session = Session(
    id: string,
    name: string,
    email: string,
    program: string,
    gradeLevel: string,
    strandCourse: string,
    amount: int,
    paymentStatus: string,
    paymentPlan: string,
    amountPaid: int)

  /** How a login attempt ends: each failure is the notification `login` shows before it returns. */
  datatype LoginOutcome = MissingId | NoData | NotFound | LoggedIn(session: Session)

  /** What a page load does with the saved session. */
  datatype RestoreStep = Resume(session: Session) | Expire | Keep

  /** A stored string used as a condition: a missing key (`null`) and the empty string are both false. */
  predicate Truthy(v: Option<string>) {
    v.Some? && v.value != ""
  }

  /** `Date.now() - parseInt(stamp) < ttl`: an unparsable stamp gives NaN, and NaN compares false. */
  predicate Within(now: int, stamp: string, ttl: int) {
    match ParseInt(stamp)
    case None => false
    case Some(t) => now - t < ttl
  }

  /** The cached roster text is reused: both cache slots are set and the cache is younger than five minutes. */
  predicate CacheFresh(data: Option<string>, time: Option<string>, now: int) {
    Truthy(data) && Truthy(time) && Within(now, time.value, RosterTtl)
  }

  /** The roster `fetchCSVFromDrive` returns: the fresh cache, else the fetched text, else the sample roster. */
  function LoadRoster(data: Option<string>, time: Option<string>, now: int, remote: Option<string>, sample: seq<Record>): seq<Record> {
    if CacheFresh(data, time, now) then Parse(data.value)
    else if Truthy(remote) then Parse(remote.value)
    else sample
  }

  /** The cache slots after `fetchCSVFromDrive`: overwritten, stamped `now`, only when fetched text is used. */
  function CacheAfterLoad(data: Option<string>, time: Option<string>, now: int, remote: Option<string>): (Option<string>, Option<string>) {
    if !CacheFresh(data, time, now) && Truthy(remote) then (remote, Some(IntToString(now)))
    else (data, time)
  }

  /** What `initializeApp` does with the saved session and its time stamp. */
  function Restore(stored: Option<Session>, time: Option<string>, now: int): RestoreStep {
    if stored.Some? && Truthy(time) then
      if Within(now, time.value, SessionTtl) then Resume(stored.value) else Expire
    else Keep
  }

  /** `row[key] === value`; a missing column reads as `undefined`, which equals no string. */
  predicate HasValue(row: Record, key: string, value: string) {
    key in row && row[key] == value
  }

  /** The `find` predicate of `login`: the row's ID, Email or Student ID is exactly the identifier. */
  predicate Matches(row: Record, studentId: string) {
    HasValue(row, "ID", studentId) || HasValue(row, "Email", studentId) || HasValue(row, "Student ID", studentId)
  }

  /** `roster.find(row => Matches(row, studentId))`: the first matching row, if any. */
  function Find(roster: seq<Record>, studentId: string): (found: Option<Record>)
    ensures found.None? <==> forall k :: 0 <= k < |roster| ==> !Matches(roster[k], studentId)
    ensures found.Some? ==>
      exists k :: 0 <= k < |roster| && roster[k] == found.value && Matches(roster[k], studentId)
        && forall j :: 0 <= j < k ==> !Matches(roster[j], studentId)
  {
    if roster == [] then None
    else if Matches(roster[0], studentId) then Some(roster[0])
    else
      var found := Find(roster[1..], studentId);
      assert found.Some? ==>
        exists k :: 0 <= k < |roster| && roster[k] == found.value && Matches(roster[k], studentId)
          && forall j :: 0 <= j < k ==> !Matches(roster[j], studentId)
      by {
        if found.Some? {
          var k :| 0 <= k < |roster[1..]| && roster[1..][k] == found.value && Matches(roster[1..][k], studentId)
            && forall j :: 0 <= j < k ==> !Matches(roster[1..][j], studentId);
          assert roster[k + 1] == found.value;
          assert forall j :: 1 <= j < k + 1 ==> roster[j] == roster[1..][j - 1];
        }
      }
      found
  }

  /** `row[key] || fallback`: the column's text when present and non-empty, else the fallback. */
  function TextOr(row: Record, key: string, fallback: string): string {
    if key in row && row[key] != "" then row[key] else fallback
  }

  /** `parseFloat(row[key]) || 0`: the parsed amount, or 0 when the column is missing or unparsable. */
  function AmountOf(row: Record, key: string, parseFloat: string -> Option<int>): int {
    if key in row then
      match parseFloat(row[key])
      case Some(v) => v
      case None => 0
    else 0
  }

  /**
   * The session `login` builds from the matched row: every text field is the
   * row's non-empty column or a fixed fallback, the identifier falls back to
   * what the student typed, and an amount is what `parseFloat` reads, or 0.
   * A negative amount is kept.
   */
  function MakeSession(row: Record, studentId: string, parseFloat: string -> Option<int>): (s: Session)
    ensures s.id == (if "ID" in row && row["ID"] != "" then row["ID"] else studentId)
    ensures studentId != "" ==> s.id != ""
    ensures HasValue(row, "ID", studentId) ==> s.id == studentId
    ensures s.name == (if "Name" in row && row["Name"] != "" then row["Name"] else "Student")
    ensures s.email == (if "Email" in row then row["Email"] else "")
    ensures s.program ==
      if "Education Level" in row && row["Education Level"] != "" then row["Education Level"]
      else if "Level" in row then row["Level"] else ""
    ensures s.gradeLevel == (if "Grade Level" in row then row["Grade Level"] else "")
    ensures s.strandCourse == (if "Strand/Course" in row then row["Strand/Course"] else "")
    ensures s.paymentStatus == (if "Payment Status" in row && row["Payment Status"] != "" then row["Payment Status"] else "Pending")
    ensures s.paymentPlan == (if "Payment Plan" in row && row["Payment Plan"] != "" then row["Payment Plan"] else "Full Payment")
    ensures "Amount" in row && parseFloat(row["Amount"]).Some? ==> s.amount == parseFloat(row["Amount"]).value
    ensures !("Amount" in row && parseFloat(row["Amount"]).Some?) ==> s.amount == 0
    ensures "Amount Paid" in row && parseFloat(row["Amount Paid"]).Some? ==> s.amountPaid == parseFloat(row["Amount Paid"]).value
    ensures !("Amount Paid" in row && parseFloat(row["Amount Paid"]).Some?) ==> s.amountPaid == 0
  {
    Session(
      id := TextOr(row, "ID", studentId),
      name := TextOr(row, "Name", "Student"),
      email := TextOr(row, "Email", ""),
      program := TextOr(row, "Education Level", TextOr(row, "Level", "")),
      gradeLevel := TextOr(row, "Grade Level", ""),
      strandCourse := TextOr(row, "Strand/Course", ""),
      amount := AmountOf(row, "Amount", parseFloat),
      paymentStatus := TextOr(row, "Payment Status", "Pending"),
      paymentPlan := TextOr(row, "Payment Plan", "Full Payment"),
      amountPaid := AmountOf(row, "Amount Paid", parseFloat))
  }

  /**
   * The outcome of `login` once the roster is loaded: no data for an empty
   * roster, not found when no row matches, and otherwise the session of the
   * first matching row. The password plays no part.
   */
  function Authenticate(studentId: string, roster: seq<Record>, parseFloat: string -> Option<int>): (outcome: LoginOutcome)
    ensures outcome != MissingId
    ensures outcome == NoData <==> roster == []
    ensures outcome == NotFound <==> roster != [] && forall k :: 0 <= k < |roster| ==> !Matches(roster[k], studentId)
    ensures outcome.LoggedIn? ==>
      exists k :: 0 <= k < |roster| && Matches(roster[k], studentId)
        && (forall j :: 0 <= j < k ==> !Matches(roster[j], studentId))
        && outcome.session == MakeSession(roster[k], studentId, parseFloat)
  {
    if |roster| == 0 then NoData
    else
      match Find(roster, studentId)
      case None => NotFound
      case Some(row) => LoggedIn(MakeSession(row, studentId, parseFloat))
  }

  /**
   * A roster cached at time `t` is reused at time `now` exactly when its text
   * is non-empty and it is younger than five minutes; a cache exactly five
   * minutes old is a miss, and one stamped in the future counts as fresh.
   */
  lemma CacheWindow(text: string, t: int, now: int)
    ensures CacheFresh(Some(text), Some(IntToString(t)), now) <==> text != "" && now - t < RosterTtl
  {
    ParseIntOfIntToString(t);
  }

  /**
   * After a load at time `t` that used fetched text, every load in the next
   * five minutes returns the same roster and keeps the cache as it is,
   * whatever the remote fetch would give.
   */
  lemma ReloadWithinTtl(data: Option<string>, time: Option<string>, t: int, fetched: Option<string>,
                        now: int, remote: Option<string>, sample: seq<Record>)
    requires !CacheFresh(data, time, t) && Truthy(fetched)
    requires now - t < RosterTtl
    ensures var (data', time') := CacheAfterLoad(data, time, t, fetched);
      && LoadRoster(data', time', now, remote, sample) == LoadRoster(data, time, t, fetched, sample)
      && CacheAfterLoad(data', time', now, remote) == (data', time')
  {
    CacheWindow(fetched.value, t, now);
  }

  /** Once the cache is five minutes old or more, a load returns the fetched text's roster, or the sample roster. */
  lemma ReloadAfterTtl(text: string, t: int, now: int, remote: Option<string>, sample: seq<Record>)
    requires now - t >= RosterTtl
    ensures LoadRoster(Some(text), Some(IntToString(t)), now, remote, sample) ==
      if Truthy(remote) then Parse(remote.value) else sample
  {
    CacheWindow(text, t, now);
  }

  /**
   * A session saved at time `t` is resumed by a page load at `now` exactly when
   * it is younger than thirty minutes; otherwise the page load expires it.
   */
  lemma SessionWindow(s: Session, t: int, now: int)
    ensures Restore(Some(s), Some(IntToString(t)), now) ==
      if now - t < SessionTtl then Resume(s) else Expire
  {
    ParseIntOfIntToString(t);
  }

  /** A scenario row: exactly the three columns, holding the given identifier, name and amount. */
  lemma ScenarioRow(row: Record, id: string, name: string, amount: string, parseFloat: string -> Option<int>, n: int)
    requires row.Keys == {"ID", "Name", "Amount"}
    requires row["ID"] == id && row["Name"] == name && row["Amount"] == amount
    requires id != "" && name != ""
    requires parseFloat(amount) == Some(n) || (parseFloat(amount) == None && n == 0)
    ensures Matches(row, id)
    ensures forall other :: other != id ==> !Matches(row, other)
    ensures MakeSession(row, id, parseFloat) == Session(id, name, "", "", "", "", n, "Pending", "Full Payment", 0)
  {
  }

  /** Three pieces joined with a separator. */
  lemma JoinThree(a: string, b: string, c: string, sep: char)
    ensures Join([a, b, c], sep) == a + [sep] + b + [sep] + c
  {
    assert [b, c][1..] == [c];
    assert Join([b, c], sep) == b + [sep] + c;
    assert [a, b, c][1..] == [b, c];
    assert Join([a, b, c], sep) == a + [sep] + (b + [sep] + c);
  }

  /** The scenario's CSV text is the one written from its header names and rows. */
  lemma ScenarioText(headers: seq<string>, rows: seq<seq<string>>)
    requires headers == ["ID", "Name", "Amount"]
    requires rows == [["1", "Alice", "100"], ["2", "Bob", "abc"]]
    ensures ToCsv(headers, rows) == "ID,Name,Amount\n1,Alice,100\n2,Bob,abc"
  {
    JoinThree(headers[0], headers[1], headers[2], ',');
    assert headers == [headers[0], headers[1], headers[2]];
    JoinThree(rows[0][0], rows[0][1], rows[0][2], ',');
    assert rows[0] == [rows[0][0], rows[0][1], rows[0][2]];
    JoinThree(rows[1][0], rows[1][1], rows[1][2], ',');
    assert rows[1] == [rows[1][0], rows[1][1], rows[1][2]];
    var lines := CsvLines(headers, rows);
    assert lines == [lines[0], lines[1], lines[2]];
    JoinThree(lines[0], lines[1], lines[2], '\n');
  }

  /** The scenario's header names and fields are plain cells. */
  lemma ScenarioPlain(headers: seq<string>, rows: seq<seq<string>>)
    requires headers == ["ID", "Name", "Amount"]
    requires rows == [["1", "Alice", "100"], ["2", "Bob", "abc"]]
    ensures forall j :: 0 <= j < |headers| ==> IsPlainCell(headers[j])
    ensures forall k, j :: 0 <= k < |rows| && 0 <= j < |rows[k]| ==> IsPlainCell(rows[k][j])
  {
    assert IsPlainCell(headers[0]) && IsPlainCell(headers[1]) && IsPlainCell(headers[2]);
    assert IsPlainCell(rows[0][0]) && IsPlainCell(rows[0][1]) && IsPlainCell(rows[0][2]);
    assert IsPlainCell(rows[1][0]) && IsPlainCell(rows[1][1]) && IsPlainCell(rows[1][2]);
  }

  /** The scenario's CSV text parses into its two rows, keyed by the three header names. */
  lemma ScenarioRoster(text: string, headers: seq<string>, rows: seq<seq<string>>)
    requires text == "ID,Name,Amount\n1,Alice,100\n2,Bob,abc"
    requires headers == ["ID", "Name", "Amount"]
    requires rows == [["1", "Alice", "100"], ["2", "Bob", "abc"]]
    ensures |Parse(text)| == 2
    ensures forall k :: 0 <= k < 2 ==> Parse(text)[k].Keys == {"ID", "Name", "Amount"}
    ensures forall k, j :: 0 <= k < 2 && 0 <= j < 3 ==> Parse(text)[k][headers[j]] == rows[k][j]
  {
    ScenarioText(headers, rows);
    ScenarioPlain(headers, rows);
    ParseToCsv(headers, rows);
    assert (set j | 0 <= j < |headers| :: headers[j]) == {"ID", "Name", "Amount"} by {
      assert headers[0] == "ID" && headers[1] == "Name" && headers[2] == "Amount";
    }
  }

  /** Logging in on a two-row roster of identifiers 1 and 2, names and amounts. */
  lemma LoginOnRoster(roster: seq<Record>, parseFloat: string -> Option<int>)
    requires |roster| == 2
    requires roster[0].Keys == {"ID", "Name", "Amount"} && roster[1].Keys == {"ID", "Name", "Amount"}
    requires roster[0]["ID"] == "1" && roster[0]["Name"] == "Alice" && roster[0]["Amount"] == "100"
    requires roster[1]["ID"] == "2" && roster[1]["Name"] == "Bob" && roster[1]["Amount"] == "abc"
    requires parseFloat("100") == Some(100) && parseFloat("abc") == None
    ensures Authenticate("1", roster, parseFloat) == LoggedIn(Session("1", "Alice", "", "", "", "", 100, "Pending", "Full Payment", 0))
    ensures Authenticate("2", roster, parseFloat) == LoggedIn(Session("2", "Bob", "", "", "", "", 0, "Pending", "Full Payment", 0))
    ensures Authenticate("9", roster, parseFloat) == NotFound
  {
    ScenarioRow(roster[0], "1", "Alice", "100", parseFloat, 100);
    ScenarioRow(roster[1], "2", "Bob", "abc", parseFloat, 0);
    assert Find(roster, "1") == Some(roster[0]);
    assert Find(roster, "2") == Some(roster[1]) by {
      assert !Matches(roster[0], "2");
      assert roster[1..][0] == roster[1];
    }
    assert Find(roster, "9") == None by {
      assert !Matches(roster[0], "9") && !Matches(roster[1], "9");
    }
  }

  /**
   * The roster parsed from `ID,Name,Amount` / `1,Alice,100` / `2,Bob,abc`:
   * identifier 1 logs Alice in with her amount, identifier 2 logs Bob in with
   * amount 0 because `abc` is no number, and identifier 9 is not found.
   */
  lemma LoginScenario(text: string, parseFloat: string -> Option<int>)
    requires text == "ID,Name,Amount\n1,Alice,100\n2,Bob,abc"
    requires parseFloat("100") == Some(100) && parseFloat("abc") == None
    ensures Authenticate("1", Parse(text), parseFloat) == LoggedIn(Session("1", "Alice", "", "", "", "", 100, "Pending", "Full Payment", 0))
    ensures Authenticate("2", Parse(text), parseFloat) == LoggedIn(Session("2", "Bob", "", "", "", "", 0, "Pending", "Full Payment", 0))
    ensures Authenticate("9", Parse(text), parseFloat) == NotFound
  {
    var headers := ["ID", "Name", "Amount"];
    var rows := [["1", "Alice", "100"], ["2", "Bob", "abc"]];
    ScenarioRoster(text, headers, rows);
    var roster := Parse(text);
    assert roster[0]["ID"] == rows[0][0] && roster[0]["Name"] == rows[0][1] && roster[0]["Amount"] == rows[0][2] by {
      assert roster[0][headers[0]] == rows[0][0] && roster[0][headers[1]] == rows[0][1] && roster[0][headers[2]] == rows[0][2];
    }
    assert roster[1]["ID"] == rows[1][0] && roster[1]["Name"] == rows[1][1] && roster[1]["Amount"] == rows[1][2] by {
      assert roster[1][headers[0]] == rows[1][0] && roster[1][headers[1]] == rows[1][1] && roster[1][headers[2]] == rows[1][2];
    }
    LoginOnRoster(roster, parseFloat);
  }

  /** The portal: browser storage, the logged-in student, and what the page is given from outside. */
  class Portal {
    /** Storage key 'university_data': the cached roster text. */
    var universityData: Option<string>
    /** Storage key 'university_data_time': when the roster text was cached. */
    var universityDataTime: Option<string>
    /** Storage key 'currentStudent': the saved session. */
    var storedStudent: Option<Session>
    /** Storage key 'sessionTime': when the session was saved. */
    var sessionTime: Option<string>
    /** The page's `currentStudent` variable: who is logged in. */
    var currentStudent: Option<Session>
    /** The roster `loadSampleData` supplies when nothing else is available. */
    const sampleRoster: seq<Record>
    /** `parseFloat` on the amount columns; `None` stands for NaN. */
    const parseFloat: string -> Option<int>
    /** How many times the remote fetch has been attempted. */
    ghost var remoteCalls: nat

    /**
     * The logged-in student is always the saved session, with its time stamp.
     * An invariant the methods maintain; no contract derives anything else from it.
     */
    ghost predicate Valid()
      reads this
    {
      currentStudent.Some? ==> storedStudent == currentStudent && Truthy(sessionTime)
    }

    /** A page opened on the given storage: nobody is logged in yet. */
    constructor (universityData: Option<string>, universityDataTime: Option<string>,
                 storedStudent: Option<Session>, sessionTime: Option<string>,
                 sampleRoster: seq<Record>, parseFloat: string -> Option<int>)
      ensures Valid()
      ensures this.universityData == universityData && this.universityDataTime == universityDataTime
      ensures this.storedStudent == storedStudent && this.sessionTime == sessionTime
      ensures this.sampleRoster == sampleRoster && this.parseFloat == parseFloat
      ensures currentStudent == None && remoteCalls == 0
    {
      this.universityData := universityData;
      this.universityDataTime := universityDataTime;
      this.storedStudent := storedStudent;
      this.sessionTime := sessionTime;
      this.sampleRoster := sampleRoster;
      this.parseFloat := parseFloat;
      currentStudent := None;
      remoteCalls := 0;
    }

    /**
     * `initializeApp`, run once when the page loads: a saved session younger
     * than thirty minutes becomes the logged-in student; an older or
     * unreadable one is removed from storage; without both keys nothing happens.
     */
    method InitializeApp(now: int)
      requires Valid() && currentStudent == None
      modifies this`currentStudent, this`storedStudent, this`sessionTime
      ensures Valid()
      ensures Restore(old(storedStudent), old(sessionTime), now).Resume? ==>
        && currentStudent == old(storedStudent)
        && storedStudent == old(storedStudent) && sessionTime == old(sessionTime)
      ensures Restore(old(storedStudent), old(sessionTime), now).Expire? ==>
        currentStudent == None && storedStudent == None && sessionTime == None
      ensures Restore(old(storedStudent), old(sessionTime), now).Keep? ==>
        currentStudent == None && storedStudent == old(storedStudent) && sessionTime == old(sessionTime)
    {
      var savedStudent := storedStudent;
      var savedTime := sessionTime;
      if savedStudent.Some? && savedTime.Some? && savedTime.value != "" {
        var stamp := ParseInt(savedTime.value);
        if stamp.Some? && now - stamp.value < SessionTtl {
          currentStudent := savedStudent;
        } else {
          storedStudent := None;
          sessionTime := None;
        }
      }
    }

    /**
     * `fetchCSVFromDrive`: the cached roster while it is fresh, without a
     * remote call; otherwise one remote call, whose non-empty text is cached
     * with the time `now` and parsed; otherwise the sample roster, with the
     * cache left as it was.
     */
    method FetchCSVFromDrive(now: int, remote: Option<string>) returns (roster: seq<Record>)
      modifies this`universityData, this`universityDataTime, this`remoteCalls
      ensures roster == LoadRoster(old(universityData), old(universityDataTime), now, remote, sampleRoster)
      ensures (universityData, universityDataTime) == CacheAfterLoad(old(universityData), old(universityDataTime), now, remote)
      ensures remoteCalls == old(remoteCalls) + if CacheFresh(old(universityData), old(universityDataTime), now) then 0 else 1
    {
      var cachedData := universityData;
      var cacheTime := universityDataTime;
      if cachedData.Some? && cachedData.value != "" && cacheTime.Some? && cacheTime.value != "" {
        var stamp := ParseInt(cacheTime.value);
        if stamp.Some? && now - stamp.value < RosterTtl {
          roster := ParseCSVData(cachedData.value);
          return;
        }
      }
      remoteCalls := remoteCalls + 1;
      var csvData := remote;
      if csvData.Some? && csvData.value != "" {
        universityData := csvData;
        universityDataTime := Some(IntToString(now));
        roster := ParseCSVData(csvData.value);
        return;
      }
      roster := sampleRoster;
    }

    /**
     * `login`: a blank identifier is refused before anything is loaded;
     * otherwise the roster is loaded, and only a successful lookup changes
     * the logged-in student and the saved session, stamped `now`. The
     * password is never consulted.
     */
    method Login(idInput: string, password: string, now: int, remote: Option<string>) returns (outcome: LoginOutcome)
      requires Valid()
      modifies this
      ensures Valid()
      ensures Trim(idInput) == "" ==> outcome == MissingId && unchanged(this)
      ensures Trim(idInput) != "" ==>
        && outcome == Authenticate(Trim(idInput), LoadRoster(old(universityData), old(universityDataTime), now, remote, sampleRoster), parseFloat)
        && (universityData, universityDataTime) == CacheAfterLoad(old(universityData), old(universityDataTime), now, remote)
        && remoteCalls == old(remoteCalls) + if CacheFresh(old(universityData), old(universityDataTime), now) then 0 else 1
      ensures outcome.LoggedIn? ==>
        && currentStudent == Some(outcome.session) && storedStudent == Some(outcome.session)
        && sessionTime == Some(IntToString(now))
      ensures !outcome.LoggedIn? ==>
        && currentStudent == old(currentStudent) && storedStudent == old(storedStudent)
        && sessionTime == old(sessionTime)
    {
      var studentId := Trim(idInput);
      if studentId == "" {
        outcome := MissingId;
        return;
      }
      var csvData := FetchCSVFromDrive(now, remote);
      if |csvData| == 0 {
        outcome := NoData;
        return;
      }
      var student := Find(csvData, studentId);
      if student.None? {
        outcome := NotFound;
        return;
      }
      var session := MakeSession(student.value, studentId, parseFloat);
      currentStudent := Some(session);
      storedStudent := Some(session);
      sessionTime := Some(IntToString(now));
      outcome := LoggedIn(session);
    }
  }
}
