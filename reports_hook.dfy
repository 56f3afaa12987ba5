/**
 * The reports hook: the loaded report list, report creation (only for a
 * signed-in user, with fixed status, priority and owner) and photo upload
 * (one storage path and public URL per file). The backend's answers, the
 * clock and the random numbers are parameters; the hook keeps a log of the
 * requests it sends.
 */
module ReportsHook {
  import opened Wrappers
  import opened Text

  /** A column value of a `civic_reports` row. */
  datatype Value = Str(s: string) | Num(x: real) | Strs(items: seq<string>)

  type Row = map<string, Value>

  datatype Request = SelectReports | InsertReport(row: Row)

  const FixedColumns: set<string> := {"user_id", "status", "priority"}

  /** `{ ...reportData, user_id: user.id, status: 'submitted', priority: 'medium' }` */
  function Payload(input: Row, userId: string): (row: Row)
    ensures row.Keys == input.Keys + FixedColumns
    ensures row["user_id"] == Str(userId)
    ensures row["status"] == Str("submitted") && row["priority"] == Str("medium")
    ensures forall k :: k in input && k !in FixedColumns ==> row[k] == input[k]
  {
    input["user_id" := Str(userId)]["status" := Str("submitted")]["priority" := Str("medium")]
  }

  /** Whatever the form sends for the fixed columns, the stored values are the fixed ones. */
  lemma PayloadOverridesInput(input: Row, userId: string, s: Value, p: Value)
    ensures Payload(input["status" := s]["priority" := p], userId) == Payload(input, userId)
  {
    var a := Payload(input["status" := s]["priority" := p], userId);
    var b := Payload(input, userId);
    assert a.Keys == b.Keys;
    forall k | k in a.Keys ensures a[k] == b[k] {
      if k !in FixedColumns {
        assert a[k] == input[k];
      }
    }
  }

  // ---------------------------------------------------------------------------
  // photo paths
  // ---------------------------------------------------------------------------

  /** `file.name.split('.').pop()`: the text after the last '.', or the whole name. */
  function FileExtension(name: string): (ext: string)
    ensures '.' !in ext
    ensures '.' !in name ==> ext == name
    ensures '.' in name ==> |ext| < |name| && name == name[..|name| - |ext| - 1] + "." + ext
  {
    var ext := AfterLast(name, '.');
    if |ext| < |name| then
      assert name == name[..|name| - |ext| - 1] + [name[|name| - |ext| - 1]] + name[|name| - |ext|..];
      ext
    else
      assert ext == name;
      ext
  }

  /** `${user?.id}`: an absent user prints as "undefined". */
  function UserText(userId: Option<string>): string {
    if userId.Some? then userId.value else "undefined"
  }

  /** The clock and random readings one file's upload takes: `Date.now()` and `${Math.random()}`. */
  datatype Stamp = Stamp(now: nat, random: string)

  /** `${Date.now()}-${Math.random()}.${fileExt}` */
  function StoredFileName(stamp: Stamp, fileName: string): string {
    NatToString(stamp.now) + "-" + stamp.random + "." + FileExtension(fileName)
  }

  /** `${user?.id}/${fileName}` */
  function UploadPath(userId: Option<string>, stamp: Stamp, fileName: string): (path: string)
    ensures var user := UserText(userId);
      |path| > |user| && path[..|user|] == user && path[|user|] == '/'
    ensures var ext := FileExtension(fileName);
      |path| > |ext| && path[|path| - |ext| - 1..] == "." + ext
  {
    var user := UserText(userId);
    var stem := NatToString(stamp.now) + "-" + stamp.random;
    var ext := FileExtension(fileName);
    var stored := StoredFileName(stamp, fileName);
    assert stored == stem + "." + ext;
    PathShape(user, stem, ext);
    user + "/" + stored
  }

  lemma PathShape(user: string, stem: string, ext: string)
    ensures var path := user + "/" + (stem + "." + ext);
      && |path| > |user| && path[..|user|] == user && path[|user|] == '/'
      && |path| > |ext| && path[|path| - |ext| - 1..] == "." + ext
  {
    var path := user + "/" + (stem + "." + ext);
    assert path == (user + "/" + stem) + "." + ext;
  }

  /** The path ends with the file's extension after a '.', and the text before the first '/' is the user part when that has no '/'. */
  lemma UploadPathParts(userId: Option<string>, stamp: Stamp, fileName: string)
    requires '/' !in UserText(userId)
    ensures AfterLast(UploadPath(userId, stamp, fileName), '.') == FileExtension(fileName)
    ensures BeforeFirst(UploadPath(userId, stamp, fileName), '/') == UserText(userId)
  {
    var user := UserText(userId);
    var ext := FileExtension(fileName);
    var stem := NatToString(stamp.now) + "-" + stamp.random;
    var stored := StoredFileName(stamp, fileName);
    var path := UploadPath(userId, stamp, fileName);
    assert stored == stem + "." + ext;
    assert path == user + "/" + stored;
    Regroup(user, stem, ext, stored, path);
    BeforeFirstOfJoin(user, stored, '/');
    AfterLastOfJoin(user + "/" + stem, ext, '.');
  }

  lemma Regroup(user: string, stem: string, ext: string, stored: string, path: string)
    requires stored == stem + "." + ext && path == user + "/" + stored
    ensures path == (user + "/" + stem) + "." + ext
  {
  }

  /**
   * `Promise.all`: every result in, in order, or one of the errors (the
   * first to arrive, which the model does not fix).
   */
  function AllSettled<T>(results: seq<Result<T, string>>): (r: Result<seq<T>, string>)
    ensures r.Ok? <==> forall i :: 0 <= i < |results| ==> results[i].Ok?
    ensures r.Ok? ==> |r.value| == |results| && forall i :: 0 <= i < |results| ==> r.value[i] == results[i].value
    ensures r.Err? ==> exists i :: 0 <= i < |results| && results[i] == Err(r.error)
  {
    if results == [] then Ok([])
    else if results[0].Err? then Err(results[0].error)
    else
      var rest := AllSettled(results[1..]);
      if rest.Err? then
        var i :| 0 <= i < |results[1..]| && results[1..][i] == Err(rest.error);
        assert results[i + 1] == Err(rest.error);
        rest
      else
        assert forall i :: 1 <= i < |results| ==> results[i] == results[1..][i - 1];
        Ok([results[0].value] + rest.value)
  }

  /** One file's upload: the storage error, or the public URL of its path. */
  function UploadOne(userId: Option<string>, stamp: Stamp, fileName: string, failure: Option<string>,
                     publicUrl: string -> string): Result<string, string> {
    if failure.Some? then Err(failure.value) else Ok(publicUrl(UploadPath(userId, stamp, fileName)))
  }

  /** The uploads of `files.map(...)`, one per file, in file order. */
  function Uploads(fileNames: seq<string>, userId: Option<string>, stamps: seq<Stamp>,
                   failures: seq<Option<string>>, publicUrl: string -> string): (uploads: seq<Result<string, string>>)
    requires |stamps| == |fileNames| && |failures| == |fileNames|
    ensures |uploads| == |fileNames|
    ensures forall i :: 0 <= i < |fileNames| ==> uploads[i] == UploadOne(userId, stamps[i], fileNames[i], failures[i], publicUrl)
  {
    if fileNames == [] then []
    else
      [UploadOne(userId, stamps[0], fileNames[0], failures[0], publicUrl)]
      + Uploads(fileNames[1..], userId, stamps[1..], failures[1..], publicUrl)
  }

  /** Upload `i` succeeds exactly when file `i` has no storage error. */
  lemma UploadsSucceedWithoutFailure(fileNames: seq<string>, userId: Option<string>, stamps: seq<Stamp>,
                                     failures: seq<Option<string>>, publicUrl: string -> string)
    requires |stamps| == |fileNames| && |failures| == |fileNames|
    ensures var uploads := Uploads(fileNames, userId, stamps, failures, publicUrl);
      forall i :: 0 <= i < |fileNames| ==> (uploads[i].Ok? <==> failures[i].None?)
  {
  }

  /**
   * `uploadPhotos`: `failures[i]` is the storage error for file i, if any;
   * `publicUrl` is the storage's path-to-URL mapping. When all uploads
   * succeed there is one URL per file, in file order; otherwise the call
   * fails with one of the errors.
   */
  function UploadPhotos(fileNames: seq<string>, userId: Option<string>, stamps: seq<Stamp>,
                        failures: seq<Option<string>>, publicUrl: string -> string): (r: Result<seq<string>, string>)
    requires |stamps| == |fileNames| && |failures| == |fileNames|
    ensures r.Ok? <==> forall i :: 0 <= i < |failures| ==> failures[i].None?
    ensures r.Ok? ==>
      && |r.value| == |fileNames|
      && forall i :: 0 <= i < |fileNames| ==> r.value[i] == publicUrl(UploadPath(userId, stamps[i], fileNames[i]))
    ensures r.Err? ==> exists i :: 0 <= i < |failures| && failures[i] == Some(r.error)
  {
    UploadsSucceedWithoutFailure(fileNames, userId, stamps, failures, publicUrl);
    AllSettled(Uploads(fileNames, userId, stamps, failures, publicUrl))
  }

  // ---------------------------------------------------------------------------
  // the hook's state
  // ---------------------------------------------------------------------------

  class ReportsState {
    var reports: seq<Row>
    var loading: bool
    /** The requests sent to the backend, oldest first. */
    var requests: seq<Request>

    constructor()
      ensures reports == [] && loading && requests == []
    {
      reports := [];
      loading := true;
      requests := [];
    }

    /**
     * `fetchReports`: `answer` is the select's reply, rows newest first. A
     * reply replaces the list (no data: empty list); an error keeps it.
     */
    method FetchReports(answer: Result<Option<seq<Row>>, string>) returns (err: Option<string>)
      modifies this
      ensures requests == old(requests) + [SelectReports]
      ensures !loading
      ensures answer.Ok? ==> err.None? && reports == answer.value.GetOr([])
      ensures answer.Err? ==> err == Some("Failed to load reports: " + answer.error) && reports == old(reports)
    {
      loading := true;
      requests := requests + [SelectReports];
      if answer.Ok? {
        reports := answer.value.GetOr([]);
        err := None;
      } else {
        err := Some("Failed to load reports: " + answer.error);
      }
      loading := false;
    }

    /**
     * `createReport`: without a user it fails before anything is sent; with
     * one it inserts the payload and, when the insert succeeds, reloads the list.
     */
    method CreateReport(userId: Option<string>, input: Row, insertAnswer: Result<Row, string>,
                        reloadAnswer: Result<Option<seq<Row>>, string>) returns (r: Result<Row, string>)
      modifies this
      ensures userId.None? ==>
        && r == Err("You must be logged in to submit a report")
        && requests == old(requests) && reports == old(reports) && loading == old(loading)
      ensures userId.Some? && insertAnswer.Err? ==>
        && r == insertAnswer
        && requests == old(requests) + [InsertReport(Payload(input, userId.value))]
        && reports == old(reports) && loading == old(loading)
      ensures userId.Some? && insertAnswer.Ok? ==>
        && r == insertAnswer
        && requests == old(requests) + [InsertReport(Payload(input, userId.value)), SelectReports]
        && !loading
        && reports == (if reloadAnswer.Ok? then reloadAnswer.value.GetOr([]) else old(reports))
    {
      if userId.None? {
        return Err("You must be logged in to submit a report");
      }
      requests := requests + [InsertReport(Payload(input, userId.value))];
      if insertAnswer.Err? {
        return insertAnswer;
      }
      var _ := FetchReports(reloadAnswer);
      r := insertAnswer;
    }
  }
}
