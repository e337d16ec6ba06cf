/**
 * The category page's roster store: the roster listing, the sequential
 * bulk refresh with its progress record, the single-student refresh, the
 * export URL and delete-all. Each HTTP exchange is an input outcome; the
 * confirmation dialog is a boolean input.
 */
module RosterPage {
  import opened Text
  import opened Records
  import RosterView
  import Session

  /** What awaiting `POST /students/fetch-single/{id}` and its JSON yields. */
  datatype RefreshOutcome = Ok(record: Student) | NotOk | Throws

  /** What awaiting `GET /students/{category}` and its JSON yields. */
  datatype ListOutcome = Listed(students: seq<Student>) | ListNotOk | ListThrows(message: string)

  /** What awaiting `DELETE /students/{category}` yields. */
  datatype DeleteOutcome = Deleted | DeleteNotOk | DeleteThrows

  /** The progress record shown by the progress bar. */
  datatype Progress = Progress(current: nat, total: nat, studentName: string)

  const CompletedName: string := "Completed!"

  // ---------------------------------------------------------------------
  // Bulk refresh: the specification of the loop
  // ---------------------------------------------------------------------

  /** The index of the first request that throws, or the number of requests when none does. */
  function StopIndex(outcomes: seq<RefreshOutcome>): (k: nat)
    ensures k <= |outcomes|
    ensures forall i :: 0 <= i < k ==> !outcomes[i].Throws?
    ensures k < |outcomes| ==> outcomes[k].Throws?
  {
    if outcomes == [] then 0
    else if outcomes[0].Throws? then 0
    else 1 + StopIndex(outcomes[1..])
  }

  /** The roster once the first `k` answers have been applied to the snapshot. */
  function Applied(snapshot: seq<Student>, outcomes: seq<RefreshOutcome>, k: nat): (r: seq<Student>)
    requires |outcomes| == |snapshot| && k <= |snapshot|
    ensures |r| == |snapshot|
  {
    seq(|snapshot|, i requires 0 <= i < |snapshot| =>
      if i < k && outcomes[i].Ok? then outcomes[i].record else snapshot[i])
  }

  /** The progress records set before requests `0 .. k-1`. */
  function Steps(snapshot: seq<Student>, k: nat): (r: seq<Progress>)
    requires k <= |snapshot|
    ensures |r| == k
  {
    seq(k, i requires 0 <= i < k => Progress(i, |snapshot|, snapshot[i].name))
  }

  /**
   * Every progress record a bulk refresh over `snapshot` publishes when it
   * stops at index `k`: the initial record, one per request issued, and
   * the completion record when no request threw.
   */
  function BulkTrace(snapshot: seq<Student>, k: nat): (t: seq<Progress>)
    requires 0 < |snapshot| && k <= |snapshot|
    ensures |t| > 0
  {
    var n := |snapshot|;
    [Progress(0, n, snapshot[0].name)] + Steps(snapshot, if k < n then k + 1 else n)
      + (if k == n then [Progress(n, n, CompletedName)] else [])
  }

  /**
   * Progress is monotone: `total` stays the roster size, `current` never
   * decreases and never exceeds `total`.
   */
  lemma BulkTraceMonotone(snapshot: seq<Student>, k: nat)
    requires 0 < |snapshot| && k <= |snapshot|
    ensures var t := BulkTrace(snapshot, k);
      && (forall i :: 0 <= i < |t| ==> t[i].total == |snapshot| && t[i].current <= t[i].total)
      && (forall i, j :: 0 <= i < j < |t| ==> t[i].current <= t[j].current)
  {
    var n := |snapshot|;
    var m := if k < n then k + 1 else n;
    var t := BulkTrace(snapshot, k);
    var st := Steps(snapshot, m);
    assert forall i :: 1 <= i <= m ==> t[i] == st[i - 1];
    assert k == n ==> t[m + 1] == Progress(n, n, CompletedName);
  }

  /** With no thrown error, every student is requested and the run ends `Completed!` at `n / n`. */
  lemma BulkRunsToCompletion(snapshot: seq<Student>, outcomes: seq<RefreshOutcome>)
    requires 0 < |snapshot| && |outcomes| == |snapshot|
    requires forall i :: 0 <= i < |outcomes| ==> !outcomes[i].Throws?
    ensures StopIndex(outcomes) == |snapshot|
    ensures var t := BulkTrace(snapshot, StopIndex(outcomes));
      t[|t| - 1] == Progress(|snapshot|, |snapshot|, CompletedName)
    ensures forall i :: 0 <= i < |snapshot| ==>
      Applied(snapshot, outcomes, StopIndex(outcomes))[i] == (if outcomes[i].Ok? then outcomes[i].record else snapshot[i])
  {
  }

  /** A run whose every answer is not OK leaves the roster as it was. */
  lemma NoAnswerNoChange(snapshot: seq<Student>, outcomes: seq<RefreshOutcome>, k: nat)
    requires |outcomes| == |snapshot| && k <= |snapshot|
    requires forall i :: 0 <= i < |outcomes| ==> !outcomes[i].Ok?
    ensures Applied(snapshot, outcomes, k) == snapshot
  {
  }

  /** How many requests a run sends: one past the first throw, or all of them. */
  function Issued(outcomes: seq<RefreshOutcome>): (c: nat)
    ensures c <= |outcomes|
    ensures StopIndex(outcomes) < |outcomes| ==> c == StopIndex(outcomes) + 1
    ensures StopIndex(outcomes) == |outcomes| ==> c == |outcomes|
  {
    var k := StopIndex(outcomes);
    if k < |outcomes| then k + 1 else k
  }

  /**
   * The logs after request `i`: one more id requested and one more
   * progress record published.
   */
  lemma LogStep(snapshot: seq<Student>, outcomes: seq<RefreshOutcome>, i: nat,
                req0: seq<int>, log0: seq<Progress>, req: seq<int>, log: seq<Progress>)
    requires |outcomes| == |snapshot| && i < |snapshot|
    requires req == req0 + Ids(snapshot[..i])
    requires log == log0 + [Progress(0, |snapshot|, snapshot[0].name)] + Steps(snapshot, i)
    ensures req + [snapshot[i].id] == req0 + Ids(snapshot[..i + 1])
    ensures log + [Progress(i, |snapshot|, snapshot[i].name)]
      == log0 + [Progress(0, |snapshot|, snapshot[0].name)] + Steps(snapshot, i + 1)
  {
    IdsPrefixStep(snapshot, i);
    StepsStep(snapshot, i);
  }

  /** The run that meets a throw at `i` stops there, having published the steps up to `i`. */
  lemma StopsAtThrow(snapshot: seq<Student>, outcomes: seq<RefreshOutcome>, i: nat,
                     req0: seq<int>, log0: seq<Progress>, req: seq<int>, log: seq<Progress>)
    requires |outcomes| == |snapshot| && i < |snapshot|
    requires forall j :: 0 <= j < i ==> !outcomes[j].Throws?
    requires outcomes[i].Throws?
    requires req == req0 + Ids(snapshot[..i + 1])
    requires log == log0 + [Progress(0, |snapshot|, snapshot[0].name)] + Steps(snapshot, i + 1)
    ensures StopIndex(outcomes) == i
    ensures Applied(snapshot, outcomes, i + 1) == Applied(snapshot, outcomes, i)
    ensures req == req0 + Ids(snapshot[..Issued(outcomes)])
    ensures log == log0 + BulkTrace(snapshot, StopIndex(outcomes))
    ensures var t := BulkTrace(snapshot, StopIndex(outcomes)); t[|t| - 1] == Progress(i, |snapshot|, snapshot[i].name)
  {
    assert BulkTrace(snapshot, i) == [Progress(0, |snapshot|, snapshot[0].name)] + Steps(snapshot, i + 1);
  }

  /** The run that meets no throw ends with the completion record. */
  lemma RunsThrough(snapshot: seq<Student>, outcomes: seq<RefreshOutcome>,
                    req0: seq<int>, log0: seq<Progress>, req: seq<int>, log: seq<Progress>)
    requires |outcomes| == |snapshot| && 0 < |snapshot|
    requires forall j :: 0 <= j < |outcomes| ==> !outcomes[j].Throws?
    requires req == req0 + Ids(snapshot[..|snapshot|])
    requires log == log0 + [Progress(0, |snapshot|, snapshot[0].name)] + Steps(snapshot, |snapshot|)
    ensures StopIndex(outcomes) == |snapshot|
    ensures req == req0 + Ids(snapshot[..Issued(outcomes)])
    ensures log + [Progress(|snapshot|, |snapshot|, CompletedName)] == log0 + BulkTrace(snapshot, StopIndex(outcomes))
    ensures var t := BulkTrace(snapshot, StopIndex(outcomes)); t[|t| - 1] == Progress(|snapshot|, |snapshot|, CompletedName)
  {
    var n := |snapshot|;
    assert BulkTrace(snapshot, n) == [Progress(0, n, snapshot[0].name)] + Steps(snapshot, n) + [Progress(n, n, CompletedName)];
  }

  /** One more answer applied: entry i replaced on OK, nothing else. */
  lemma AppliedStep(snapshot: seq<Student>, outcomes: seq<RefreshOutcome>, i: nat)
    requires |outcomes| == |snapshot| && i < |snapshot|
    ensures Applied(snapshot, outcomes, i + 1) ==
      if outcomes[i].Ok? then Applied(snapshot, outcomes, i)[i := outcomes[i].record] else Applied(snapshot, outcomes, i)
  {
  }

  lemma StepsStep(snapshot: seq<Student>, i: nat)
    requires i < |snapshot|
    ensures Steps(snapshot, i + 1) == Steps(snapshot, i) + [Progress(i, |snapshot|, snapshot[i].name)]
  {
  }

  lemma IdsPrefixStep(snapshot: seq<Student>, i: nat)
    requires i < |snapshot|
    ensures Ids(snapshot[..i + 1]) == Ids(snapshot[..i]) + [snapshot[i].id]
  {
    assert snapshot[..i + 1] == snapshot[..i] + [snapshot[i]];
    IdsAppend(snapshot[..i], [snapshot[i]]);
  }

  // ---------------------------------------------------------------------
  // Single refresh and export: their specifications
  // ---------------------------------------------------------------------

  /** `students.map(s => s.id === studentId ? updatedStudent : s)` */
  function ReplaceById(students: seq<Student>, studentId: int, updated: Student): (r: seq<Student>)
    ensures |r| == |students|
  {
    seq(|students|, i requires 0 <= i < |students| => if students[i].id == studentId then updated else students[i])
  }

  /** An id that is not in the roster leaves it as it is. */
  lemma ReplaceUnknownId(students: seq<Student>, studentId: int, updated: Student)
    requires studentId !in Ids(students)
    ensures ReplaceById(students, studentId, updated) == students
  {
    forall i | 0 <= i < |students| ensures students[i].id != studentId {
      assert Ids(students)[i] == students[i].id;
    }
  }

  /** With unique ids, replacing by id is replacing the one entry that has it, as bulk refresh does. */
  lemma ReplaceUniqueId(students: seq<Student>, k: nat, updated: Student)
    requires k < |students|
    requires forall i, j :: 0 <= i < j < |students| ==> students[i].id != students[j].id
    ensures ReplaceById(students, students[k].id, updated) == students[k := updated]
  {
  }

  /** `[(key, value)]` when the value is truthy, nothing otherwise. */
  function Param(key: string, value: string): (ps: seq<(string, string)>)
    ensures |ps| <= 1
  {
    if value != "" then [(key, value)] else []
  }

  /**
   * The query parameters of the export URL: the truthy filters, in fixed
   * order. `ExportUrlPieces` ties them to the URL's five conditional
   * appends and `ExportQueryRoundTrip` reads them back from the query.
   */
  function ExportParams(f: RosterView.ExportFilters): (ps: seq<(string, string)>)
    ensures |ps| <= 5
    ensures forall i :: 0 <= i < |ps| ==> ps[i].1 != ""
  {
    Param("min_lc", f.minLc) + Param("min_java", f.minJava) + Param("min_python", f.minPython)
    + Param("min_c", f.minC) + Param("min_sql", f.minSql)
  }

  /** `key=value&` for every parameter. */
  function Query(ps: seq<(string, string)>): string
  {
    if ps == [] then "" else ps[0].0 + "=" + ps[0].1 + "&" + Query(ps[1..])
  }

  /** Reads `key=value&...` back into its parameters (the inverse of `Query`). */
  function ParseQuery(q: string): seq<(string, string)>
  {
    var pieces := Split(q, '&');
    ParsePairs(pieces[..|pieces| - 1])
  }

  function ParsePairs(pieces: seq<string>): seq<(string, string)>
  {
    if pieces == [] then []
    else
      var kv := Split(pieces[0], '=');
      (if |kv| == 2 then [(kv[0], kv[1])] else []) + ParsePairs(pieces[1..])
  }

  /** The URL `handleExport` requests. */
  function ExportUrl(apiUrl: string, category: string, f: RosterView.ExportFilters): string
  {
    apiUrl + "/export/" + category + "?" + Query(ExportParams(f))
  }

  predicate PlainQueryText(s: string)
  {
    '&' !in s && '=' !in s
  }

  lemma PairSplits(k: string, v: string)
    requires PlainQueryText(k) && PlainQueryText(v)
    ensures Split(k + "=" + v, '=') == [k, v]
  {
    assert k + "=" + v == k + ['='] + v;
    SplitAround(k, v, '=');
    SplitNoSeparator(k, '=');
    SplitNoSeparator(v, '=');
  }

  lemma {:induction false} QuerySplits(ps: seq<(string, string)>)
    requires forall i :: 0 <= i < |ps| ==> PlainQueryText(ps[i].0) && PlainQueryText(ps[i].1)
    ensures var pieces := Split(Query(ps), '&');
      |pieces| == |ps| + 1 && pieces[|ps|] == ""
      && forall i :: 0 <= i < |ps| ==> pieces[i] == ps[i].0 + "=" + ps[i].1
  {
    if ps != [] {
      var head := ps[0].0 + "=" + ps[0].1;
      assert '&' !in head by {
        assert head == ps[0].0 + ['='] + ps[0].1;
      }
      QuerySplits(ps[1..]);
      assert Query(ps) == head + ['&'] + Query(ps[1..]);
      SplitAround(head, Query(ps[1..]), '&');
      SplitNoSeparator(head, '&');
    }
  }

  lemma {:induction false} PairsParse(ps: seq<(string, string)>, pieces: seq<string>)
    requires |pieces| == |ps|
    requires forall i :: 0 <= i < |ps| ==> PlainQueryText(ps[i].0) && PlainQueryText(ps[i].1)
    requires forall i :: 0 <= i < |ps| ==> pieces[i] == ps[i].0 + "=" + ps[i].1
    ensures ParsePairs(pieces) == ps
  {
    if ps != [] {
      PairSplits(ps[0].0, ps[0].1);
      PairsParse(ps[1..], pieces[1..]);
    }
  }

  /**
   * Reading the query back gives exactly the truthy filters in the order
   * `min_lc`, `min_java`, `min_python`, `min_c`, `min_sql`, for filter
   * values without `&` or `=` (the URL is not percent-encoded).
   */
  lemma ExportQueryRoundTrip(f: RosterView.ExportFilters)
    requires PlainQueryText(f.minLc) && PlainQueryText(f.minJava) && PlainQueryText(f.minPython)
    requires PlainQueryText(f.minC) && PlainQueryText(f.minSql)
    ensures ParseQuery(Query(ExportParams(f))) == ExportParams(f)
  {
    var ps := ExportParams(f);
    assert forall i :: 0 <= i < |ps| ==> PlainQueryText(ps[i].0) && PlainQueryText(ps[i].1);
    QuerySplits(ps);
    var pieces := Split(Query(ps), '&');
    PairsParse(ps, pieces[..|pieces| - 1]);
  }

  /** With every filter empty the URL carries no parameter. */
  lemma ExportUrlUnfiltered(apiUrl: string, category: string)
    ensures ExportUrl(apiUrl, category, RosterView.ExportFilters("", "", "", "", "")) == apiUrl + "/export/" + category + "?"
  {
  }

  // ---------------------------------------------------------------------
  // The page state
  // ---------------------------------------------------------------------

  class CategoryPage {
    const apiUrl: string
    const category: string
    var students: seq<Student>
    var loading: bool
    var fetchLoading: bool
    var progress: Progress
    var error: string
    /** The 1500 ms timer that clears `fetchLoading` after a completed run is pending. */
    var settlePending: bool
    /** Ids of the students whose refresh was requested, in request order. */
    ghost var requested: seq<int>
    /** Every record passed to `setProgress`, in order. */
    ghost var progressLog: seq<Progress>

    constructor (apiUrl: string, category: string)
      ensures this.apiUrl == apiUrl && this.category == category
      ensures students == [] && loading && !fetchLoading && progress == Progress(0, 0, "") && error == ""
      ensures !settlePending && requested == [] && progressLog == []
    {
      this.apiUrl := apiUrl;
      this.category := category;
      students := [];
      loading := true;
      fetchLoading := false;
      progress := Progress(0, 0, "");
      error := "";
      settlePending := false;
      requested := [];
      progressLog := [];
    }

    /** `fetchStudents`: the listing replaces the roster; a failure keeps it and sets the error. */
    method FetchStudents(outcome: ListOutcome)
      modifies this
      ensures !loading
      ensures outcome.Listed? ==> students == outcome.students && error == old(error)
      ensures outcome.ListNotOk? ==> students == old(students) && error == "Failed to fetch students"
      ensures outcome.ListThrows? ==> students == old(students) && error == outcome.message
      ensures fetchLoading == old(fetchLoading) && progress == old(progress) && settlePending == old(settlePending)
      ensures requested == old(requested) && progressLog == old(progressLog)
    {
      loading := true;
      match outcome {
        case Listed(list) => students := list;
        case ListNotOk => error := "Failed to fetch students";
        case ListThrows(message) => error := message;
      }
      loading := false;
    }

    /**
     * `handleRefreshAll`: with `outcomes[i]` the answer to the i-th request,
     * requests the snapshot's ids in order, replaces entry i on an OK
     * answer, skips it otherwise, and stops at the first thrown error.
     */
    method RefreshAll(confirmed: bool, outcomes: seq<RefreshOutcome>)
      requires |outcomes| == |students|
      modifies this
      ensures old(students) == [] || !confirmed ==>
        && students == old(students) && progress == old(progress) && fetchLoading == old(fetchLoading)
        && settlePending == old(settlePending) && requested == old(requested) && progressLog == old(progressLog)
      ensures old(students) != [] && confirmed ==>
        var s, n, k := old(students), |old(students)|, StopIndex(outcomes);
        && students == Applied(s, outcomes, k)
        && requested == old(requested) + Ids(s[..Issued(outcomes)])
        && progressLog == old(progressLog) + BulkTrace(s, k)
        && progress == BulkTrace(s, k)[|BulkTrace(s, k)| - 1]
        && fetchLoading == (k == n) && settlePending == (k == n || old(settlePending))
      ensures loading == old(loading) && error == old(error)
    {
      if |students| == 0 { return; }
      if !confirmed { return; }
      RunRefresh(outcomes);
    }

    /** The confirmed run over a non-empty roster: the loop of `handleRefreshAll`. */
    method RunRefresh(outcomes: seq<RefreshOutcome>)
      requires |outcomes| == |students| && students != []
      modifies this
      ensures var s, n, k := old(students), |old(students)|, StopIndex(outcomes);
        && students == Applied(s, outcomes, k)
        && requested == old(requested) + Ids(s[..Issued(outcomes)])
        && progressLog == old(progressLog) + BulkTrace(s, k)
        && progress == BulkTrace(s, k)[|BulkTrace(s, k)| - 1]
        && fetchLoading == (k == n) && settlePending == (k == n || old(settlePending))
      ensures loading == old(loading) && error == old(error)
    {
      var snapshot := students;
      var n := |snapshot|;
      fetchLoading := true;
      progress := Progress(0, n, snapshot[0].name);
      progressLog := progressLog + [progress];
      var i := 0;
      while i < n
        invariant 0 <= i <= n
        invariant forall j :: 0 <= j < i ==> !outcomes[j].Throws?
        invariant students == Applied(snapshot, outcomes, i)
        invariant requested == old(requested) + Ids(snapshot[..i])
        invariant progressLog == old(progressLog) + [Progress(0, n, snapshot[0].name)] + Steps(snapshot, i)
        invariant progress == progressLog[|progressLog| - 1]
        invariant fetchLoading && settlePending == old(settlePending)
        invariant loading == old(loading) && error == old(error)
      {
        LogStep(snapshot, outcomes, i, old(requested), old(progressLog), requested, progressLog);
        var threw := RequestStudent(snapshot, outcomes, i);
        if threw {
          StopsAtThrow(snapshot, outcomes, i, old(requested), old(progressLog), requested, progressLog);
          return;
        }
        i := i + 1;
      }
      RunsThrough(snapshot, outcomes, old(requested), old(progressLog), requested, progressLog);
      progress := Progress(n, n, CompletedName);
      progressLog := progressLog + [progress];
      settlePending := true;
    }

    /**
     * One pass of the loop body: the progress record for student `i`, the
     * request, and the answer applied; a thrown error ends the run with
     * `fetchLoading` false.
     */
    method RequestStudent(snapshot: seq<Student>, outcomes: seq<RefreshOutcome>, i: nat) returns (threw: bool)
      requires |outcomes| == |snapshot| && i < |snapshot|
      requires students == Applied(snapshot, outcomes, i)
      modifies this
      ensures threw == outcomes[i].Throws?
      ensures progress == Progress(i, |snapshot|, snapshot[i].name)
      ensures progressLog == old(progressLog) + [progress]
      ensures requested == old(requested) + [snapshot[i].id]
      ensures students == Applied(snapshot, outcomes, i + 1)
      ensures fetchLoading == (old(fetchLoading) && !threw)
      ensures settlePending == old(settlePending) && loading == old(loading) && error == old(error)
    {
      progress := Progress(i, |snapshot|, snapshot[i].name);
      progressLog := progressLog + [progress];
      requested := requested + [snapshot[i].id];
      AppliedStep(snapshot, outcomes, i);
      threw := false;
      match outcomes[i] {
        case Throws =>
          fetchLoading := false;
          threw := true;
        case NotOk =>
        case Ok(record) =>
          students := students[i := record];
      }
    }

    /** The settle timer of a completed run fires and dismisses the progress display. */
    method SettleElapsed()
      requires settlePending
      modifies this
      ensures !fetchLoading && !settlePending
      ensures students == old(students) && progress == old(progress) && requested == old(requested)
      ensures progressLog == old(progressLog) && loading == old(loading) && error == old(error)
    {
      fetchLoading := false;
      settlePending := false;
    }

    /** `handleRefreshSingle`: an OK answer replaces the records with that id; `fetchLoading` ends false. */
    method RefreshSingle(studentId: int, outcome: RefreshOutcome)
      modifies this
      ensures requested == old(requested) + [studentId]
      ensures students == if outcome.Ok? then ReplaceById(old(students), studentId, outcome.record) else old(students)
      ensures !fetchLoading
      ensures progress == old(progress) && progressLog == old(progressLog) && settlePending == old(settlePending)
      ensures loading == old(loading) && error == old(error)
    {
      fetchLoading := true;
      requested := requested + [studentId];
      if outcome.Ok? {
        students := ReplaceById(students, studentId, outcome.record);
      }
      fetchLoading := false;
    }

    /** One `if (filters.x) urlStr += \`x=${filters.x}&\`` step. */
    static method AppendParam(url: string, key: string, value: string) returns (r: string)
      ensures r == url + Piece(key, value)
    {
      r := url;
      if value != "" {
        r := r + (key + "=" + value + "&");
      }
    }

    /** `handleExport`: the URL grows by one `key=value&` per truthy filter. */
    method HandleExport(filters: RosterView.ExportFilters) returns (url: string)
      ensures url == ExportUrl(apiUrl, category, filters)
    {
      url := apiUrl + "/export/" + category + "?";
      url := AppendParam(url, "min_lc", filters.minLc);
      url := AppendParam(url, "min_java", filters.minJava);
      url := AppendParam(url, "min_python", filters.minPython);
      url := AppendParam(url, "min_c", filters.minC);
      url := AppendParam(url, "min_sql", filters.minSql);
      ExportUrlPieces(apiUrl, category, filters);
    }

    /**
     * `handleDeleteAll`: nothing without confirmation; a successful delete
     * empties the roster and refreshes the session's profile, which leaves
     * a session without a token as it was; a failure keeps the roster.
     */
    method HandleDeleteAll(confirmed: bool, outcome: DeleteOutcome, session: Session.AuthSession,
                           profileOutcome: Session.ProfileOutcome)
      requires session.Valid()
      modifies this, session
      ensures session.Valid()
      ensures students == (if confirmed && outcome.Deleted? then [] else old(students))
      ensures !(confirmed && outcome.Deleted?) ==>
        && session.token == old(session.token) && session.user == old(session.user)
        && session.stored == old(session.stored) && session.loading == old(session.loading)
        && session.profileFetches == old(session.profileFetches)
      ensures confirmed && outcome.Deleted? && !old(session.HasToken()) ==>
        && session.token == old(session.token) && session.user == old(session.user)
        && session.stored == old(session.stored) && session.loading == old(session.loading)
        && session.profileFetches == old(session.profileFetches)
      ensures confirmed && outcome.Deleted? && old(session.HasToken()) ==>
        && !session.loading && session.profileFetches == old(session.profileFetches) + 1
        && session.FetchedState(old(session.token), old(session.user), profileOutcome)
      ensures fetchLoading == old(fetchLoading) && progress == old(progress) && requested == old(requested)
      ensures progressLog == old(progressLog) && loading == old(loading) && error == old(error)
      ensures settlePending == old(settlePending)
    {
      if !confirmed { return; }
      if outcome.Deleted? {
        students := [];
        session.RefreshProfile(profileOutcome);
      }
    }
  }

  /** The text one `if (filters.x) urlStr += ...` step appends. */
  function Piece(key: string, value: string): string
  {
    if value != "" then key + "=" + value + "&" else ""
  }

  /** The five conditional appends build exactly the query of `ExportParams`. */
  lemma QueryAppend(f: RosterView.ExportFilters)
    ensures Query(ExportParams(f)) ==
      Piece("min_lc", f.minLc) + Piece("min_java", f.minJava) + Piece("min_python", f.minPython)
      + Piece("min_c", f.minC) + Piece("min_sql", f.minSql)
  {
    var p1, p2, p3 := Param("min_lc", f.minLc), Param("min_java", f.minJava), Param("min_python", f.minPython);
    var p4, p5 := Param("min_c", f.minC), Param("min_sql", f.minSql);
    QueryConcat(p1 + p2 + p3 + p4, p5);
    QueryConcat(p1 + p2 + p3, p4);
    QueryConcat(p1 + p2, p3);
    QueryConcat(p1, p2);
    QueryParam("min_lc", f.minLc);
    QueryParam("min_java", f.minJava);
    QueryParam("min_python", f.minPython);
    QueryParam("min_c", f.minC);
    QueryParam("min_sql", f.minSql);
  }

  /** `ExportUrl` is the base followed by the five pieces, appended one after another. */
  lemma ExportUrlPieces(apiUrl: string, category: string, f: RosterView.ExportFilters)
    ensures ExportUrl(apiUrl, category, f) ==
      apiUrl + "/export/" + category + "?" + Piece("min_lc", f.minLc) + Piece("min_java", f.minJava)
      + Piece("min_python", f.minPython) + Piece("min_c", f.minC) + Piece("min_sql", f.minSql)
  {
    var b := apiUrl + "/export/" + category + "?";
    var q := Query(ExportParams(f));
    assert ExportUrl(apiUrl, category, f) == b + q;
    QueryAppend(f);
    var p1, p2, p3 := Piece("min_lc", f.minLc), Piece("min_java", f.minJava), Piece("min_python", f.minPython);
    var p4, p5 := Piece("min_c", f.minC), Piece("min_sql", f.minSql);
    assert q == p1 + p2 + p3 + p4 + p5;
    AppendAssoc(b, p1 + p2 + p3 + p4, p5);
    AppendAssoc(b, p1 + p2 + p3, p4);
    AppendAssoc(b, p1 + p2, p3);
    AppendAssoc(b, p1, p2);
  }

  lemma QueryParam(k: string, v: string)
    ensures Query(Param(k, v)) == Piece(k, v)
  {
    if v != "" {
      assert Param(k, v)[1..] == [];
    }
  }

  lemma {:induction false} QueryConcat(a: seq<(string, string)>, b: seq<(string, string)>)
    ensures Query(a + b) == Query(a) + Query(b)
  {
    if a == [] {
      assert a + b == b;
    } else {
      QueryConcat(a[1..], b);
      assert (a + b)[0] == a[0];
      assert (a + b)[1..] == a[1..] + b;
      AppendAssoc(a[0].0 + "=" + a[0].1 + "&", Query(a[1..]), Query(b));
    }
  }
}
