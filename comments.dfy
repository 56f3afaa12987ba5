/**
 * The comments hook: a report's public notes, stored as a list of strings on
 * the report row, shown as comments. Adding a comment reads the current notes,
 * appends "name: text" and writes the list back; fetching turns note i into
 * the comment with id "reportId-i". The backend is a small store with a log
 * of the requests it received; the clock is a parameter.
 */
module Comments {
  import opened Wrappers
  import opened Text

  datatype User = User(id: string, email: Option<string>, fullName: Option<string>)

  datatype Comment = Comment(id: string, content: string, createdAt: string, userName: string, userEmail: Option<string>)

  /** The `public_notes` column: a JSON array of strings, or anything else (null included). */
  datatype NotesField = NotesArray(notes: seq<string>) | NotArray

  datatype Request = SelectNotes(reportId: string) | UpdateNotes(reportId: string, notes: seq<string>)

  // ---------------------------------------------------------------------------
  // pure parts
  // ---------------------------------------------------------------------------

  /** `Array.isArray(public_notes) ? public_notes : []` */
  function CurrentNotes(field: NotesField): (notes: seq<string>)
    ensures field.NotArray? ==> notes == []
  {
    if field.NotesArray? then field.notes else []
  }

  /** `user_metadata?.full_name || email?.split('@')[0] || 'Anonymous'` */
  function AuthorName(u: User): (name: string)
    ensures name != []
    ensures u.fullName.Some? && u.fullName.value != [] ==> name == u.fullName.value
    ensures (u.fullName.None? || u.fullName.value == []) ==> '@' !in name
    ensures ((u.fullName.None? || u.fullName.value == []) && u.email.Some?
             && BeforeFirst(u.email.value, '@') != []) ==> name == BeforeFirst(u.email.value, '@')
    ensures ((u.fullName.None? || u.fullName.value == [])
             && (u.email.None? || BeforeFirst(u.email.value, '@') == [])) ==> name == "Anonymous"
  {
    if u.fullName.Some? && u.fullName.value != [] then u.fullName.value
    else if u.email.Some? && BeforeFirst(u.email.value, '@') != [] then BeforeFirst(u.email.value, '@')
    else "Anonymous"
  }

  /** Without a full name, the author is the email's local part when there is one. */
  lemma AuthorFromEmail(u: User, local: string, domain: string)
    requires u.fullName.None? || u.fullName.value == []
    requires local != [] && '@' !in local && u.email == Some(local + "@" + domain)
    ensures AuthorName(u) == local
  {
    var e := local + "@" + domain;
    assert forall k :: 0 <= k < |local| ==> e[k] == local[k];
    assert e[|local|] == '@';
    assert e[..|local|] == local;
  }

  /** `${userName}: ${content.trim()}` */
  function FormatNote(userName: string, content: string): (note: string)
    ensures |note| == |userName| + 2 + |Trim(content)|
    ensures note[..|userName| + 2] == userName + ": "
    ensures note[|userName| + 2..] == Trim(content)
  {
    userName + ": " + Trim(content)
  }

  /** `${reportId}-${index}` */
  function CommentId(reportId: string, index: nat): string {
    reportId + "-" + NatToString(index)
  }

  /** The id is the report id, a dash, and the index in decimal. */
  lemma CommentIdDenotes(reportId: string, index: nat)
    ensures var id := CommentId(reportId, index);
      && |id| > |reportId| + 1
      && id[..|reportId| + 1] == reportId + "-"
      && AllDigits(id[|reportId| + 1..])
      && ParseDecimal(id[|reportId| + 1..]) == index
  {
    var id := CommentId(reportId, index);
    assert id[|reportId| + 1..] == NatToString(index);
  }

  /** Within one report, different positions never share a comment id. */
  lemma CommentIdsDistinct(reportId: string, i: nat, j: nat)
    requires CommentId(reportId, i) == CommentId(reportId, j)
    ensures i == j
  {
    CommentIdDenotes(reportId, i);
    CommentIdDenotes(reportId, j);
  }

  /** `[...currentNotes, newNote]`: every earlier note stays in place and the new one comes last. */
  function AppendNote(current: seq<string>, u: User, content: string): (updated: seq<string>)
    ensures |updated| == |current| + 1
    ensures updated[..|current|] == current
    ensures updated[|current|] == AuthorName(u) + ": " + Trim(content)
  {
    current + [FormatNote(AuthorName(u), content)]
  }

  /** `notes.map((note, index) => ...)`: the comments `fetchComments` shows. */
  function NotesToComments(reportId: string, notes: seq<string>, now: string): (cs: seq<Comment>)
    ensures |cs| == |notes|
    ensures forall i :: 0 <= i < |cs| ==>
      cs[i] == Comment(CommentId(reportId, i), notes[i], now, "Citizen", None)
  {
    seq(|notes|, i requires 0 <= i < |notes| => Comment(CommentId(reportId, i), notes[i], now, "Citizen", None))
  }

  /** The comment `addComment` puts in front of the local list. */
  function NewComment(reportId: string, currentCount: nat, u: User, content: string, now: string): Comment {
    Comment(CommentId(reportId, currentCount), Trim(content), now, AuthorName(u), u.email)
  }

  /**
   * The local comment added for a note and the comment a later fetch derives
   * from the stored list share the id; the fetched one shows the whole stored
   * note, author prefix included.
   */
  lemma AddedCommentMatchesFetch(reportId: string, current: seq<string>, u: User, content: string, now: string, later: string)
    ensures var fetched := NotesToComments(reportId, AppendNote(current, u, content), later);
      && |fetched| == |current| + 1
      && fetched[|current|].id == NewComment(reportId, |current|, u, content, now).id
      && fetched[|current|].content == FormatNote(AuthorName(u), NewComment(reportId, |current|, u, content, now).content)
      && fetched[..|current|] == NotesToComments(reportId, current, later)
  {
    AppendedNoteKeepsComments(reportId, current, FormatNote(AuthorName(u), content), later);
    assert AppendNote(current, u, content) == current + [FormatNote(AuthorName(u), content)];
    TrimIdempotent(content);
  }

  /** Appending a note leaves the comments derived from the earlier notes as they were. */
  lemma AppendedNoteKeepsComments(reportId: string, current: seq<string>, note: string, now: string)
    ensures NotesToComments(reportId, current + [note], now)[..|current|] == NotesToComments(reportId, current, now)
  {
  }

  // ---------------------------------------------------------------------------
  // the backend
  // ---------------------------------------------------------------------------

  /** The `civic_reports` table reduced to its `public_notes` column, keyed by report id. */
  class NotesBackend {
    var rows: map<string, NotesField>
    var log: seq<Request>

    constructor(initial: map<string, NotesField>)
      ensures rows == initial && log == []
    {
      rows := initial;
      log := [];
    }

    /** `select('public_notes').eq('id', id).single()`: an error unless exactly the row exists. */
    method Select(reportId: string) returns (r: Result<NotesField, string>)
      modifies this
      ensures rows == old(rows) && log == old(log) + [SelectNotes(reportId)]
      ensures reportId in rows ==> r == Ok(rows[reportId])
      ensures reportId !in rows ==> r.Err?
    {
      log := log + [SelectNotes(reportId)];
      if reportId in rows {
        r := Ok(rows[reportId]);
      } else {
        r := Err("JSON object requested, multiple (or no) rows returned");
      }
    }

    /** `update({ public_notes }).eq('id', id)`; `failure` is the error the server answers, if any. */
    method Update(reportId: string, notes: seq<string>, failure: Option<string>) returns (err: Option<string>)
      modifies this
      ensures log == old(log) + [UpdateNotes(reportId, notes)]
      ensures err == failure
      ensures failure.Some? || reportId !in old(rows) ==> rows == old(rows)
      ensures failure.None? && reportId in old(rows) ==> rows == old(rows)[reportId := NotesArray(notes)]
    {
      log := log + [UpdateNotes(reportId, notes)];
      err := failure;
      if failure.None? && reportId in rows {
        rows := rows[reportId := NotesArray(notes)];
      }
    }
  }

  // ---------------------------------------------------------------------------
  // the hook
  // ---------------------------------------------------------------------------

  datatype AddOutcome = NotSignedIn | EmptyComment | Failed(message: string) | Added(comment: Comment)

  class CommentsHook {
    var comments: seq<Comment>
    var loading: bool

    constructor()
      ensures comments == [] && !loading
    {
      comments := [];
      loading := false;
    }

    /** `fetchComments`: replaces the list with the report's notes as comments; on error keeps it. */
    method FetchComments(db: NotesBackend, reportId: string, now: string) returns (err: Option<string>)
      modifies this, db
      ensures db.rows == old(db.rows) && db.log == old(db.log) + [SelectNotes(reportId)]
      ensures !loading
      ensures reportId in db.rows ==>
        err.None? && comments == NotesToComments(reportId, CurrentNotes(db.rows[reportId]), now)
      ensures reportId !in db.rows ==> err.Some? && comments == old(comments)
    {
      loading := true;
      var r := db.Select(reportId);
      if r.Ok? {
        comments := NotesToComments(reportId, CurrentNotes(r.value), now);
        err := None;
      } else {
        err := Some("Failed to load comments: " + r.error);
      }
      loading := false;
    }

    /**
     * `addComment`: no user or blank content leave everything as it was;
     * otherwise the note is appended to the stored list and, once the write
     * went through, the new comment goes to the front of the local list.
     */
    method AddComment(db: NotesBackend, user: Option<User>, reportId: string, content: string,
                      now: string, updateFailure: Option<string>) returns (outcome: AddOutcome)
      modifies this, db
      ensures user.None? ==> outcome == NotSignedIn
      ensures user.Some? && IsBlank(content) ==> outcome == EmptyComment
      ensures outcome.NotSignedIn? || outcome.EmptyComment? ==>
        db.rows == old(db.rows) && db.log == old(db.log) && comments == old(comments) && loading == old(loading)
      ensures user.Some? && !IsBlank(content) && reportId !in old(db.rows) ==>
        outcome.Failed? && db.rows == old(db.rows) && db.log == old(db.log) + [SelectNotes(reportId)]
        && comments == old(comments) && !loading
      ensures user.Some? && !IsBlank(content) && reportId in old(db.rows) ==>
        var current := CurrentNotes(old(db.rows)[reportId]);
        var updated := AppendNote(current, user.value, content);
        && db.log == old(db.log) + [SelectNotes(reportId), UpdateNotes(reportId, updated)]
        && !loading
        && (updateFailure.Some? ==> outcome.Failed? && db.rows == old(db.rows) && comments == old(comments))
        && (updateFailure.None? ==>
              && db.rows == old(db.rows)[reportId := NotesArray(updated)]
              && outcome == Added(NewComment(reportId, |current|, user.value, content, now))
              && comments == [outcome.comment] + old(comments))
    {
      if user.None? {
        return NotSignedIn;
      }
      if Trim(content) == [] {
        return EmptyComment;
      }
      outcome := PostNote(db, user.value, reportId, content, now, updateFailure);
    }

    /** The read-append-write part of `addComment`, once the user and the content passed. */
    method PostNote(db: NotesBackend, u: User, reportId: string, content: string,
                    now: string, updateFailure: Option<string>) returns (outcome: AddOutcome)
      modifies this, db
      ensures !loading
      ensures reportId !in old(db.rows) ==>
        outcome.Failed? && db.rows == old(db.rows) && db.log == old(db.log) + [SelectNotes(reportId)]
        && comments == old(comments)
      ensures reportId in old(db.rows) ==>
        var current := CurrentNotes(old(db.rows)[reportId]);
        var updated := AppendNote(current, u, content);
        && db.log == old(db.log) + [SelectNotes(reportId), UpdateNotes(reportId, updated)]
        && (updateFailure.Some? ==> outcome.Failed? && db.rows == old(db.rows) && comments == old(comments))
        && (updateFailure.None? ==>
              && db.rows == old(db.rows)[reportId := NotesArray(updated)]
              && outcome == Added(NewComment(reportId, |current|, u, content, now))
              && comments == [outcome.comment] + old(comments))
    {
      loading := true;
      var r := db.Select(reportId);
      if r.Err? {
        outcome := Failed("Failed to add comment: " + r.error);
      } else {
        outcome := WriteNote(db, u, reportId, CurrentNotes(r.value), content, now, updateFailure);
      }
      loading := false;
    }

    /** The write-back once the current notes are read: the appended list, then the local comment. */
    method WriteNote(db: NotesBackend, u: User, reportId: string, current: seq<string>, content: string,
                     now: string, updateFailure: Option<string>) returns (outcome: AddOutcome)
      modifies this, db
      ensures loading == old(loading)
      ensures db.log == old(db.log) + [UpdateNotes(reportId, AppendNote(current, u, content))]
      ensures updateFailure.Some? ==> outcome.Failed? && db.rows == old(db.rows) && comments == old(comments)
      ensures (updateFailure.None? && reportId in old(db.rows)) ==>
        && db.rows == old(db.rows)[reportId := NotesArray(AppendNote(current, u, content))]
        && outcome == Added(NewComment(reportId, |current|, u, content, now))
        && comments == [outcome.comment] + old(comments)
    {
      var err := db.Update(reportId, AppendNote(current, u, content), updateFailure);
      if err.Some? {
        outcome := Failed("Failed to add comment: " + err.value);
      } else {
        var c := NewComment(reportId, |current|, u, content, now);
        comments := [c] + comments;
        outcome := Added(c);
      }
    }
  }
}
