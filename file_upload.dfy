/** The `FileUpload` component (src/components/FileUpload.js): the upload
    decision protocol. Its five React state variables are the fields of
    `Uploader`; its four handlers are methods, each taken as one sequential
    step. The storage upload, the row insert, the `onUploadSuccess` callback
    and each `detectConflicts` call are appended to an effect log, so the
    contracts can say which writes a handler performs and in what order. */
module FileUpload {
  import opened Common
  import opened VectorMath
  import opened EmbeddingService
  import ConflictAlert

  /** What `file.text()` gives. */
  datatype TextRead = Text(text: string) | ReadFailed(message: string)

  /** The selected browser `File`: its name, MIME type, size and text. */
  datatype File = File(name: string, mimeType: string, size: nat, contents: TextRead)

  /** The stashed upload awaiting the user's decision. */
  datatype Pending = Pending(file: File, content: Option<string>, embedding: Option<Vector>)

  /** The row inserted into `files` (lines 79-86). */
  datatype NewRow = NewRow(userId: string, name: string, size: nat, mimeType: string,
                           content: Option<string>, embedding: Option<Vector>)

  /** The outside effects of the handlers, in the order they happen. */
  datatype Effect =
    | Analyze(content: string)         // `embeddingService.detectConflicts(content, ...)`
    | UploadBlob(key: string, file: File)  // `storage.from('user-files').upload(key, file)`
    | InsertRow(row: NewRow)           // `from('files').insert(row)`
    | UploadSucceeded                  // `onUploadSuccess()`

  /** The protocol's two resting states. */
  datatype Phase = Idle | AwaitingDecision

  /** A file is read as text when its type starts with `text/` or its name
      ends with `.txt` (line 25). */
  predicate IsTextFile(f: File) {
    StartsWith(f.mimeType, "text/") || EndsWith(f.name, ".txt")
  }

  /** The storage key `${userId}/${Date.now()}_${file.name}`. */
  function BlobKey(userId: string, now: nat, f: File): string {
    userId + "/" + NatToDecimal(now) + "_" + f.name
  }

  /** A file is read as text exactly when its type is `text/` followed by
      anything, or its name is anything followed by `.txt`. */
  lemma IsTextFileIff(f: File)
    ensures IsTextFile(f) <==>
      (exists t: string :: f.mimeType == "text/" + t) || (exists t: string :: f.name == t + ".txt")
  {
    if StartsWith(f.mimeType, "text/") {
      assert f.mimeType == "text/" + f.mimeType[5..];
    }
    if EndsWith(f.name, ".txt") {
      assert f.name == f.name[..|f.name| - 4] + ".txt";
    }
    if exists t: string :: f.mimeType == "text/" + t {
      var t: string :| f.mimeType == "text/" + t;
      assert f.mimeType[..5] == "text/";
    }
    if exists t: string :: f.name == t + ".txt" {
      var t: string :| f.name == t + ".txt";
      assert f.name[|f.name| - 4..] == ".txt";
    }
  }

  /** Uploads of the same file by the same user at different times go to
      different storage keys. */
  lemma BlobKeyInjective(userId: string, m: nat, n: nat, f: File)
    requires BlobKey(userId, m, f) == BlobKey(userId, n, f)
    ensures m == n
  {
    var a, b := NatToDecimal(m), NatToDecimal(n);
    var ka, kb := BlobKey(userId, m, f), BlobKey(userId, n, f);
    var p := |userId| + 1;
    assert ka == (userId + "/") + (a + ("_" + f.name));
    assert kb == (userId + "/") + (b + ("_" + f.name));
    assert ka[p..] == a + ("_" + f.name);
    assert kb[p..] == b + ("_" + f.name);
    LeadingDigitsOfDecimal(a, "_" + f.name);
    LeadingDigitsOfDecimal(b, "_" + f.name);
    assert |a| == |b|;
    assert a == ka[p..][..|a|];
    assert b == kb[p..][..|b|];
    DecimalInjective(m, n);
  }

  /** The effects of `proceedWithUpload`: the blob upload, then, if it did not
      fail, the row insert, then, if that did not fail, the success callback.
      `storageError` and `insertError` are the errors the two calls return. */
  function CommitEffects(userId: string, f: File, content: Option<string>, embedding: Option<Vector>, now: nat,
                         storageError: Option<string>, insertError: Option<string>): (es: seq<Effect>)
    ensures 1 <= |es| <= 3 && es[0] == UploadBlob(BlobKey(userId, now, f), f)
    ensures |es| >= 2 <==> storageError.None?
    ensures |es| >= 2 ==> es[1] == InsertRow(NewRow(userId, f.name, f.size, f.mimeType, content, embedding))
    ensures |es| == 3 <==> storageError.None? && insertError.None?
    ensures |es| == 3 ==> es[2] == UploadSucceeded
  {
    var blob := [UploadBlob(BlobKey(userId, now, f), f)];
    var row := [InsertRow(NewRow(userId, f.name, f.size, f.mimeType, content, embedding))];
    if storageError.Some? then blob
    else if insertError.Some? then blob + row
    else blob + row + [UploadSucceeded]
  }

  /** The message of what `proceedWithUpload` throws, if anything. */
  function CommitError(storageError: Option<string>, insertError: Option<string>): Option<string> {
    if storageError.Some? then storageError else insertError
  }

  /** The message shown once a handler's upload has finished or failed. */
  function OutcomeMessage(error: Option<string>): string {
    if error.None? then "File uploaded successfully!" else "Error: " + error.value
  }

  /** `if (conflictResult.error)`: an error message is truthy unless empty. */
  predicate ReportFailed(r: Report): (b: bool)
    ensures b ==> r.error.Some?
    ensures r.error == Some("") ==> !b
  {
    r.error.Some? && r.error.value != ""
  }

  /** The report stops the upload and asks the user (lines 36-46). */
  predicate StopsForDecision(r: Report) {
    !ReportFailed(r) && r.hasConflicts
  }

  /** A report from `detectConflicts` that carries an error never stops the
      upload, whether or not its message is empty: it has no conflicts. */
  lemma ErroredReportNeverStops(fileContent: Option<string>, userId: string, env: Environment, quot: Quotient)
    ensures DetectConflicts(fileContent, userId, env, quot).report.error.Some? ==>
      !StopsForDecision(DetectConflicts(fileContent, userId, env, quot).report)
    ensures StopsForDecision(DetectConflicts(fileContent, userId, env, quot).report) ==>
      DetectConflicts(fileContent, userId, env, quot).report.embedding.Some?
  {
  }

  /** The effect log holds one blob upload per committed upload and a row
      insert only right after a blob upload that succeeded. */
  lemma CommitWritesBlobFirst(userId: string, f: File, content: Option<string>, embedding: Option<Vector>, now: nat,
                              storageError: Option<string>, insertError: Option<string>)
    ensures var es := CommitEffects(userId, f, content, embedding, now, storageError, insertError);
      && multiset(es)[UploadBlob(BlobKey(userId, now, f), f)] == 1
      && (forall i :: 0 <= i < |es| && es[i].InsertRow? ==> i == 1 && es[0].UploadBlob?)
      && (CommitError(storageError, insertError).None? <==> UploadSucceeded in es)
  {
  }

  class Uploader {
    /** The `userId` prop. */
    const userId: string

    var uploading: bool
    var message: string
    var showConflictAlert: bool
    var conflictData: Option<Report>
    var pendingUpload: Option<Pending>

    /** The outside effects so far. */
    var effects: seq<Effect>

    /** Between handlers nothing is uploading, and the alert is shown exactly
        while an upload with a conflicting report is stashed. */
    ghost predicate Valid()
      reads this
    {
      !uploading && Valid'()
    }

    /** `Valid()` with `uploading` set: the state inside a handler. */
    ghost predicate Valid'()
      reads this
    {
      && (showConflictAlert <==> pendingUpload.Some?)
      && (conflictData.Some? <==> pendingUpload.Some?)
      && (conflictData.Some? ==>
            && StopsForDecision(conflictData.value)
            && |conflictData.value.conflicts| > 0
            && pendingUpload.value.embedding == conflictData.value.embedding)
    }

    function Phase(): Phase
      reads this
    {
      if showConflictAlert then AwaitingDecision else Idle
    }

    /** What the alert renders while it is shown, with a freshly mounted
        `showDetails` of false. */
    function AlertView(): Option<ConflictAlert.View>
      reads this
    {
      if !showConflictAlert then None
      else
        ConflictAlert.Render(
          if conflictData.Some? then Some(conflictData.value.conflicts) else None,
          if pendingUpload.Some? then Some(pendingUpload.value.file.name) else None,
          false)
    }

    constructor (userId: string)
      ensures this.userId == userId
      ensures Valid() && Phase() == Idle
      ensures message == "" && conflictData.None? && pendingUpload.None? && effects == []
    {
      this.userId := userId;
      uploading := false;
      message := "";
      showConflictAlert := false;
      conflictData := None;
      pendingUpload := None;
      effects := [];
    }

    /** `proceedWithUpload(file, content, embedding)`: upload the blob, then
        insert the row; returns the message of the error it rethrows. The
        `finally` clears `uploading` on every path. */
    method ProceedWithUpload(f: File, content: Option<string>, embedding: Option<Vector>, now: nat,
                             storageError: Option<string>, insertError: Option<string>)
      returns (thrown: Option<string>)
      modifies this
      ensures thrown == CommitError(storageError, insertError)
      ensures effects == old(effects) + CommitEffects(userId, f, content, embedding, now, storageError, insertError)
      ensures message == (if thrown.None? then "File uploaded successfully!" else "Uploading file...")
      ensures !uploading
      ensures showConflictAlert == old(showConflictAlert) && conflictData == old(conflictData)
      ensures pendingUpload == old(pendingUpload)
    {
      message := "Uploading file...";
      var key := BlobKey(userId, now, f);
      effects := effects + [UploadBlob(key, f)];
      if storageError.Some? {
        uploading := false;
        return storageError;
      }
      effects := effects + [InsertRow(NewRow(userId, f.name, f.size, f.mimeType, content, embedding))];
      if insertError.Some? {
        uploading := false;
        return insertError;
      }
      message := "File uploaded successfully!";
      effects := effects + [UploadSucceeded];
      uploading := false;
      thrown := None;
    }

    /** `handleFileUpload(event)` for the selected `file` (None when the input
        has none). `env` and `quot` are what the conflict check runs against;
        `now` is `Date.now()`; `storageError` and `insertError` are what the
        two writes return. */
    method HandleFileUpload(file: Option<File>, env: Environment, quot: Quotient, now: nat,
                            storageError: Option<string>, insertError: Option<string>)
      requires Valid()
      modifies this
      ensures Valid()
      // No file: nothing happens.
      ensures file.None? ==>
        && message == old(message) && effects == old(effects)
        && showConflictAlert == old(showConflictAlert) && conflictData == old(conflictData)
        && pendingUpload == old(pendingUpload)
      // The text of a text file cannot be read: an error, and no write.
      ensures file.Some? && IsTextFile(file.value) && file.value.contents.ReadFailed? ==>
        && message == "Error: " + file.value.contents.message && effects == old(effects)
        && showConflictAlert == old(showConflictAlert) && conflictData == old(conflictData)
        && pendingUpload == old(pendingUpload)
      // No text to analyse: committed straight away with a null embedding.
      ensures file.Some? && (!IsTextFile(file.value) || (file.value.contents.Text? && IsBlank(file.value.contents.text))) ==>
        var content := if IsTextFile(file.value) then Some(file.value.contents.text) else None;
        && effects == old(effects) + CommitEffects(userId, file.value, content, None, now, storageError, insertError)
        && message == OutcomeMessage(CommitError(storageError, insertError))
        && showConflictAlert == old(showConflictAlert) && conflictData == old(conflictData)
        && pendingUpload == old(pendingUpload)
      // Text to analyse: one conflict check, then stop for a decision or commit.
      ensures file.Some? && IsTextFile(file.value) && file.value.contents.Text? && !IsBlank(file.value.contents.text) ==>
        var text := file.value.contents.text;
        var report := DetectConflicts(Some(text), userId, env, quot).report;
        if StopsForDecision(report) then
          && effects == old(effects) + [Analyze(text)]
          && message == "Checking for similar content..."
          && showConflictAlert && conflictData == Some(report)
          && pendingUpload == Some(Pending(file.value, Some(text), report.embedding))
        else
          && effects == old(effects) + [Analyze(text)]
                        + CommitEffects(userId, file.value, Some(text), report.embedding, now, storageError, insertError)
          && message == OutcomeMessage(CommitError(storageError, insertError))
          && showConflictAlert == old(showConflictAlert) && conflictData == old(conflictData)
          && pendingUpload == old(pendingUpload)
    {
      if file.None? {
        return;
      }
      var f := file.value;
      uploading := true;
      message := "Analyzing file content...";

      var content: Option<string> := None;
      if IsTextFile(f) {
        if f.contents.ReadFailed? {
          message := "Error: " + f.contents.message;
          uploading := false;
          return;
        }
        content := Some(f.contents.text);
      }

      if content.Some? && !IsBlank(content.value) {
        message := "Checking for similar content...";
        effects := effects + [Analyze(content.value)];
        var conflictResult := DetectConflicts(content, userId, env, quot).report;
        ActOnReport(f, content.value, conflictResult, now, storageError, insertError);
      } else {
        var thrown := ProceedWithUpload(f, content, None, now, storageError, insertError);
        if thrown.Some? {
          message := "Error: " + thrown.value;
        }
      }
    }

    /** Lines 36-49 of `handleFileUpload`: what happens once the conflict
        report for the file's text is in. */
    method ActOnReport(f: File, text: string, report: Report, now: nat,
                       storageError: Option<string>, insertError: Option<string>)
      requires uploading
      requires !report.hasConflicts || |report.conflicts| > 0
      requires Valid'()
      modifies this
      ensures Valid()
      ensures StopsForDecision(report) ==>
        && effects == old(effects)
        && message == old(message)
        && showConflictAlert && conflictData == Some(report)
        && pendingUpload == Some(Pending(f, Some(text), report.embedding))
      ensures !StopsForDecision(report) ==>
        && effects == old(effects) + CommitEffects(userId, f, Some(text), report.embedding, now, storageError, insertError)
        && message == OutcomeMessage(CommitError(storageError, insertError))
        && showConflictAlert == old(showConflictAlert) && conflictData == old(conflictData)
        && pendingUpload == old(pendingUpload)
    {
      if ReportFailed(report) {
        message := "Warning: Could not check for conflicts. " + report.error.value;
      } else if report.hasConflicts {
        conflictData := Some(report);
        pendingUpload := Some(Pending(f, Some(text), report.embedding));
        showConflictAlert := true;
        uploading := false;
        return;
      }
      var thrown := ProceedWithUpload(f, Some(text), report.embedding, now, storageError, insertError);
      if thrown.Some? {
        message := "Error: " + thrown.value;
      }
    }

    /** `handleConflictProceed`: the "Upload Anyway" button, only present
        while the alert is shown. Commits the stashed file, text and
        embedding without a second conflict check, then clears the stash
        whether or not the upload succeeded. */
    method HandleConflictProceed(now: nat, storageError: Option<string>, insertError: Option<string>)
      requires Valid() && showConflictAlert
      modifies this
      ensures Valid() && Phase() == Idle
      ensures var p := old(pendingUpload).value;
        effects == old(effects) + CommitEffects(userId, p.file, p.content, p.embedding, now, storageError, insertError)
      ensures message == OutcomeMessage(CommitError(storageError, insertError))
      ensures pendingUpload.None? && conflictData.None?
    {
      showConflictAlert := false;
      uploading := true;
      var p := pendingUpload.value;
      var thrown := ProceedWithUpload(p.file, p.content, p.embedding, now, storageError, insertError);
      if thrown.Some? {
        message := "Error: " + thrown.value;
      }
      pendingUpload := None;
      conflictData := None;
    }

    /** `handleConflictCancel`: the "Cancel Upload" button. Discards the
        stash and writes nothing. */
    method HandleConflictCancel()
      requires Valid()
      modifies this
      ensures Valid() && Phase() == Idle
      ensures effects == old(effects)
      ensures message == "" && pendingUpload.None? && conflictData.None?
    {
      showConflictAlert := false;
      pendingUpload := None;
      conflictData := None;
      uploading := false;
      message := "";
    }
  }

  /** While the protocol awaits a decision, the alert renders (it is never
      the empty-list `null`), with one card per stashed conflict. */
  lemma AwaitingDecisionRendersAlert(u: Uploader)
    requires u.Valid() && u.Phase() == AwaitingDecision
    ensures u.AlertView().Some?
    ensures |u.AlertView().value.cards| == |u.conflictData.value.conflicts|
  {
  }

  /** Proceeding uses the embedding of the report that stopped the upload:
      the row written carries exactly that embedding. */
  lemma ProceedUsesReportEmbedding(u: Uploader, now: nat, insertError: Option<string>)
    requires u.Valid() && u.Phase() == AwaitingDecision
    ensures var p := u.pendingUpload.value;
      CommitEffects(u.userId, p.file, p.content, p.embedding, now, None, insertError)[1]
        == InsertRow(NewRow(u.userId, p.file.name, p.file.size, p.file.mimeType, p.content,
                            u.conflictData.value.embedding))
  {
  }
}
