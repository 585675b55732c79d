// What each of the twelve mutations does to a review record, as functions.
// The methods in ReviewStore.dfy, which work in place, are proved against these.
module ReviewHandlers {
  import opened Wrappers
  import opened Utf8
  import opened ReviewTypes

  datatype Outcome = Done(record: Record, detail: Detail) | Refused(error: Error)

  // ---- review.refresh ----

  function RefreshThread(t: Thread, generation: nat, retained: set<string>): Thread {
    if t.anchor.file !in retained then t.(stale := true)
    else if t.stale then t
    else t.(generation := generation)
  }

  function RefreshThreads(threads: seq<Thread>, generation: nat, retained: set<string>): (r: seq<Thread>)
    ensures |r| == |threads|
    ensures forall k :: 0 <= k < |r| ==> r[k] == RefreshThread(threads[k], generation, retained)
  {
    seq(|threads|, k requires 0 <= k < |threads| => RefreshThread(threads[k], generation, retained))
  }

  function KeepFiles(files: seq<string>, retained: set<string>): (r: seq<string>)
    ensures |r| <= |files| && forall f :: f in r <==> f in files && f in retained
  {
    if files == [] then []
    else KeepFiles(files[..|files| - 1], retained) + (if files[|files| - 1] in retained then [files[|files| - 1]] else [])
  }

  function KeepHunks(hunks: seq<(string, nat)>, retained: set<string>): (r: seq<(string, nat)>)
    ensures |r| <= |hunks| && forall h :: h in r <==> h in hunks && h.0 in retained
  {
    if hunks == [] then []
    else KeepHunks(hunks[..|hunks| - 1], retained) + (if hunks[|hunks| - 1].0 in retained then [hunks[|hunks| - 1]] else [])
  }

  function DoRefresh(rec: Record, patch: Str, source: Option<Json>, retained: set<string>): Outcome {
    if |patch| > MAX_SNAPSHOT_BYTES then Refused(Invalid(SnapshotLimit))
    else if source.Some? && source.value != rec.source then Refused(Invalid(SourceChanged))
    else if patch == rec.patch then Done(rec, Refreshed(false))
    else if rec.generation >= U64_MAX then Refused(Invalid(GenerationLimit))
    else
      Done(rec.(patch := patch,
                generation := rec.generation + 1,
                threads := RefreshThreads(rec.threads, rec.generation + 1, retained),
                progress := Progress(KeepFiles(rec.progress.files, retained), KeepHunks(rec.progress.hunks, retained), None),
                lastReturn := None),
           Refreshed(true))
  }

  // ---- comments ----

  function DraftError(d: Draft): Option<Error> {
    if !Bounded(d.body, MAX_BODY_BYTES) then Some(Invalid(InvalidParams))
    else if d.origin.Some? && d.origin.value.OtherOrigin? then Some(Invalid(InvalidOrigin))
    else if !BoundedOption(d.author, 256) then Some(Invalid(InvalidParams))
    else None
  }

  function NewMessage(d: Draft, revision: nat, replyTo: Option<string>, uid: string): Message {
    Message(EntityId(MessageEntity, uid), replyTo, d.body, if d.origin.Some? then d.origin.value else Agent, d.author, revision, false)
  }

  function View(t: Thread): ThreadView {
    ThreadView(t.id, t.anchor, t.generation, t.stale, t.disposition)
  }

  function DoAdd(rec: Record, anchor: Anchor, d: Draft, revision: nat, env: Env): Outcome {
    if |rec.threads| >= MAX_REVIEW_THREADS then Refused(Invalid(ThreadLimit))
    else if TotalMessages(rec.threads) >= MAX_REVIEW_MESSAGES then Refused(Invalid(MessageLimit))
    else if AnchorError(anchor).Some? then Refused(AnchorError(anchor).value)
    else if DraftError(d).Some? then Refused(DraftError(d).value)
    else
      var m := NewMessage(d, revision, None, env.uid1);
      var t := Thread(EntityId(ThreadEntity, env.uid2), anchor, [m], rec.generation, false, Disposition.Open);
      Done(rec.(threads := rec.threads + [t]), Commented(View(t), m))
  }

  function DoReply(rec: Record, threadId: string, replyTo: string, d: Draft, revision: nat, env: Env): Outcome {
    if TotalMessages(rec.threads) >= MAX_REVIEW_MESSAGES then Refused(Invalid(MessageLimit))
    else
      var i := FindThread(rec.threads, threadId);
      if i == |rec.threads| then Refused(Missing(ThreadNotFound))
      else
        var t := rec.threads[i];
        if FindMessage(t.messages, replyTo) == |t.messages| then Refused(Invalid(InvalidReply))
        else if DraftError(d).Some? then Refused(DraftError(d).value)
        else
          var m := NewMessage(d, revision, Some(replyTo), env.uid1);
          Done(rec.(threads := rec.threads[i := t.(messages := t.messages + [m])]), Commented(View(t), m))
  }

  predicate LiveHuman(m: Message) {
    m.origin == Human && !m.deleted
  }

  function DoEdit(rec: Record, messageId: string, body: string, revision: nat): Outcome {
    var i := FindThreadOf(rec.threads, messageId);
    if i == |rec.threads| then Refused(Missing(MessageNotFound))
    else
      var t := rec.threads[i];
      var k := FindMessage(t.messages, messageId);
      if t.messages[k].origin != Human then Refused(Invalid(HumanMessageRequired))
      else if exists j :: k < j < |t.messages| && LiveHuman(t.messages[j]) then Refused(Invalid(LatestMessageRequired))
      else if t.messages[k].deleted then Refused(Invalid(MessageDeleted))
      else if !Bounded(body, MAX_BODY_BYTES) then Refused(Invalid(InvalidParams))
      else
        var m := t.messages[k].(body := body, revision := revision);
        Done(rec.(threads := rec.threads[i := t.(messages := t.messages[k := m])]), Commented(View(t), m))
  }

  function DoRemove(rec: Record, messageId: string, revision: nat): Outcome {
    var i := FindThreadOf(rec.threads, messageId);
    if i == |rec.threads| then Refused(Missing(MessageNotFound))
    else
      var t := rec.threads[i];
      var k := FindMessage(t.messages, messageId);
      if t.messages[k].origin != Human then Refused(Invalid(HumanMessageRequired))
      else
        var m := t.messages[k].(body := "", deleted := true, revision := revision);
        Done(rec.(threads := rec.threads[i := t.(messages := t.messages[k := m])]), Commented(View(t), m))
  }

  // ---- feedback.submit and feedback.ack ----

  predicate InThreads(threads: seq<Thread>, m: Message) {
    exists i :: 0 <= i < |threads| && m in threads[i].messages
  }

  predicate Carries(messages: seq<Message>, id: string, revision: nat) {
    exists a :: 0 <= a < |messages| && messages[a].id == id && messages[a].revision == revision
  }

  predicate ThreadsCarry(threads: seq<Thread>, id: string, revision: nat) {
    exists i :: 0 <= i < |threads| && Carries(threads[i].messages, id, revision)
  }

  // Some submission carries this version of the message.
  predicate Sent(submissions: seq<Submission>, id: string, revision: nat) {
    exists k :: 0 <= k < |submissions| && ThreadsCarry(submissions[k].threads, id, revision)
  }

  // The thread holds human text that no submission carries yet.
  predicate HasNews(submissions: seq<Submission>, t: Thread) {
    exists a :: 0 <= a < |t.messages| && LiveHuman(t.messages[a]) && !Sent(submissions, t.messages[a].id, t.messages[a].revision)
  }

  predicate Selected(selected: Option<seq<string>>, id: string) {
    selected.None? || id in selected.value
  }

  function News(threads: seq<Thread>, selected: Option<seq<string>>, submissions: seq<Submission>): (r: seq<Thread>)
    ensures forall t :: t in r <==> t in threads && Selected(selected, t.id) && HasNews(submissions, t)
  {
    if threads == [] then []
    else
      var t := threads[|threads| - 1];
      News(threads[..|threads| - 1], selected, submissions)
      + (if Selected(selected, t.id) && HasNews(submissions, t) then [t] else [])
  }

  function ThreadIds(threads: seq<Thread>): (r: seq<string>)
    ensures |r| == |threads| && forall k :: 0 <= k < |r| ==> r[k] == threads[k].id
  {
    seq(|threads|, k requires 0 <= k < |threads| => threads[k].id)
  }

  predicate HasId(messages: seq<Message>, id: string) {
    exists a :: 0 <= a < |messages| && messages[a].id == id
  }

  function Ids(messages: seq<Message>): (r: seq<string>)
    ensures |r| == |messages| && forall k :: 0 <= k < |r| ==> r[k] == messages[k].id
    ensures forall id :: id in r <==> HasId(messages, id)
  {
    seq(|messages|, k requires 0 <= k < |messages| => messages[k].id)
  }

  function MessageIds(threads: seq<Thread>): (r: seq<string>)
    ensures forall id :: id in r <==> exists i :: 0 <= i < |threads| && HasId(threads[i].messages, id)
  {
    if threads == [] then []
    else
      var last := |threads| - 1;
      MessageIds(threads[..last]) + Ids(threads[last].messages)
  }

  predicate AllThreads(threads: seq<Thread>, ids: seq<string>) {
    forall k :: 0 <= k < |ids| ==> FindThread(threads, ids[k]) < |threads|
  }

  function DoSubmit(rec: Record, selected: Option<seq<string>>, revision: nat, env: Env): Outcome {
    if |rec.submissions| >= MAX_FEEDBACK_SUBMISSIONS then Refused(Invalid(SubmissionLimit))
    else if selected.Some? && !AllThreads(rec.threads, selected.value) then Refused(Invalid(ThreadNotFound))
    else
      var threads := News(rec.threads, selected, rec.submissions);
      if threads == [] then Refused(Invalid(NoFeedback))
      else
        var s := Submission(EntityId(SubmissionEntity, env.uid1), ThreadIds(threads), MessageIds(threads), rec.generation, revision, [], threads);
        Done(rec.(submissions := rec.submissions + [s]), Submitted(s))
  }

  function Consumer(consumer: Option<string>): string {
    if consumer.Some? then consumer.value else "agent"
  }

  function DoAcknowledge(rec: Record, submissionId: string, consumer: Option<string>): Outcome {
    var name := Consumer(consumer);
    if !Bounded(name, 256) then Refused(Invalid(InvalidParams))
    else
      var i := FindSubmission(rec.submissions, submissionId);
      if i == |rec.submissions| then Refused(Missing(SubmissionNotFound))
      else
        var s := rec.submissions[i];
        if name in s.acknowledgedBy then Done(rec, Detail.Acknowledged(submissionId, name))
        else if |s.acknowledgedBy| >= MAX_CONSUMERS then Refused(Invalid(ConsumerLimit))
        else Done(rec.(submissions := rec.submissions[i := s.(acknowledgedBy := s.acknowledgedBy + [name])]),
                  Detail.Acknowledged(submissionId, name))
  }

  // ---- review.finish and review.disposition ----

  predicate SubmittedNow(rec: Record, id: string) {
    exists k :: 0 <= k < |rec.submissions| && rec.submissions[k].id == id && rec.submissions[k].generation == rec.generation
  }

  predicate AllSubmittedNow(rec: Record, ids: seq<string>) {
    forall k :: 0 <= k < |ids| ==> SubmittedNow(rec, ids[k])
  }

  function DoFinish(rec: Record, outcome: Verdict, submissionIds: Option<seq<string>>, revision: nat): Outcome {
    if outcome.OtherVerdict? then Refused(Invalid(InvalidOutcome))
    else
      var ids := if submissionIds.Some? then submissionIds.value else [];
      if !AllSubmittedNow(rec, ids) then Refused(Invalid(InvalidSubmission))
      else if outcome == SubmittedVerdict && ids == [] then Refused(Invalid(InvalidSubmission))
      else if outcome != SubmittedVerdict && ids != [] then Refused(Invalid(InvalidSubmission))
      else Done(rec.(lastReturn := Some(Return(outcome, ids, revision))), Finished(outcome, ids))
  }

  function DoDisposition(rec: Record, threadId: string, disposition: Disposition): Outcome {
    if disposition.OtherDisposition? then Refused(Invalid(InvalidDisposition))
    else
      var i := FindThread(rec.threads, threadId);
      if i == |rec.threads| then Refused(Missing(ThreadNotFound))
      else Done(rec.(threads := rec.threads[i := rec.threads[i].(disposition := disposition)]), Disposed(threadId, disposition))
  }

  // ---- review.progress and review.reanchor ----

  function Without(files: seq<string>, file: string): (r: seq<string>)
    ensures |r| <= |files| && forall f :: f in r <==> f in files && f != file
  {
    if files == [] then []
    else Without(files[..|files| - 1], file) + (if files[|files| - 1] != file then [files[|files| - 1]] else [])
  }

  function UpdatedProgress(p: Progress, u: ProgressUpdate): Progress {
    match u
    case MarkFile(file, reviewed) => p.(files := Without(p.files, file) + if reviewed then [file] else [])
    case Replace(files, hunks, verdict) =>
      Progress(if files.Some? then files.value else p.files,
               if hunks.Some? then hunks.value else p.hunks,
               if verdict.None? then p.verdict else if verdict.value == JsonNull then None else verdict)
  }

  function FilesError(files: seq<string>): Option<Error> {
    if files == [] then None
    else if FileError(files[0]).Some? then FileError(files[0])
    else FilesError(files[1..])
  }

  function HunksError(hunks: seq<(string, nat)>): Option<Error> {
    if hunks == [] then None
    else if FileError(hunks[0].0).Some? then FileError(hunks[0].0)
    else if hunks[0].1 == 0 then Some(Invalid(InvalidProgress))
    else HunksError(hunks[1..])
  }

  function ProgressError(p: Progress): Option<Error> {
    if |p.files| > MAX_REVIEWED_FILES || |p.hunks| > MAX_REVIEWED_HUNKS then Some(Invalid(ProgressLimit))
    else if FilesError(p.files).Some? then FilesError(p.files)
    else if HunksError(p.hunks).Some? then HunksError(p.hunks)
    else if p.verdict.Some? && p.verdict.value.JsonValue? && Utf8Size(p.verdict.value.encoding) > 8192 then Some(Invalid(VerdictLimit))
    else None
  }

  function DoProgress(rec: Record, u: ProgressUpdate): Outcome {
    if u.MarkFile? && FileError(u.file).Some? then Refused(FileError(u.file).value)
    else
      var p := UpdatedProgress(rec.progress, u);
      if ProgressError(p).Some? then Refused(ProgressError(p).value)
      else Done(rec.(progress := p), Progressed(|p.files|, |p.hunks|))
  }

  function ReanchorThreads(threads: seq<Thread>, updates: seq<AnchorUpdate>, generation: nat, seen: set<string>)
    : Result<seq<Thread>, Error>
    decreases |updates|
  {
    if updates == [] then Ok(threads)
    else
      var u := updates[0];
      if AnchorError(u.anchor).Some? then Err(AnchorError(u.anchor).value)
      else if u.threadId in seen then Err(Invalid(InvalidParams))
      else if u.generation.Some? && u.generation.value != generation then Err(Invalid(StaleGeneration))
      else
        var i := FindThread(threads, u.threadId);
        if i == |threads| then Err(Missing(ThreadNotFound))
        else ReanchorThreads(threads[i := threads[i].(anchor := u.anchor, stale := u.stale, generation := generation)],
                             updates[1..], generation, seen + {u.threadId})
  }

  function DoReanchor(rec: Record, updates: seq<AnchorUpdate>, progress: Option<ProgressUpdate>): Outcome {
    if |updates| > MAX_REVIEW_THREADS then Refused(Invalid(ThreadLimit))
    else
      match ReanchorThreads(rec.threads, updates, rec.generation, {})
      case Err(e) => Refused(e)
      case Ok(threads) =>
        var moved := rec.(threads := threads);
        if progress.None? then Done(moved, Reanchored(|updates|))
        else
          match DoProgress(moved, progress.value)
          case Refused(e) => Refused(e)
          case Done(r, _) => Done(r, Reanchored(|updates|))
  }

  // ---- one mutation ----

  function Handle(rec: Record, p: Params, revision: nat, env: Env): Outcome {
    match p
    case Refresh(patch, source) => DoRefresh(rec, patch, source, env.retained)
    case AddComment(anchor, draft) => DoAdd(rec, anchor, draft, revision, env)
    case Reply(threadId, replyTo, draft) => DoReply(rec, threadId, replyTo, draft, revision, env)
    case Edit(messageId, body) => DoEdit(rec, messageId, body, revision)
    case Remove(messageId) => DoRemove(rec, messageId, revision)
    case Submit(selected) => DoSubmit(rec, selected, revision, env)
    case Acknowledge(submissionId, consumer) => DoAcknowledge(rec, submissionId, consumer)
    case Finish(outcome, ids) => DoFinish(rec, outcome, ids, revision)
    case SetDisposition(threadId, disposition) => DoDisposition(rec, threadId, disposition)
    case SetProgress(update) => DoProgress(rec, update)
    case Reanchor(updates, progress) => DoReanchor(rec, updates, progress)
    case Begin => Done(rec.(lastReturn := None), Begun)
  }

  // The submission inside a submit receipt is kept by reference.
  function Compact(a: Answer): Answer {
    if a.detail.Submitted? then a.(detail := SubmittedRef(a.detail.submission.id)) else a
  }

  // What `call` adds after a handler succeeded: the counter, the change-log entry
  // (the oldest one goes when there are too many) and the receipt.
  function Complete(r: Record, q: Request, revision: nat, detail: Detail): Record {
    var entity := if detail.Commented? then Some(detail.thread.id) else None;
    var log := r.changes + [Change(revision, MethodKind(q.params), entity, r.generation)];
    var receipt := Receipt(q.mutationId, q, if q.params.Refresh? then Some(ClientPart(q)) else None,
                           Compact(Answer(r.id, r.generation, revision, detail)));
    r.(revision := revision,
       changes := if |log| > MAX_REVIEW_CHANGES then log[1..] else log,
       receipts := r.receipts + [receipt])
  }

  function ReceiptResult(rec: Record, receipt: Receipt): Result<Answer, Error> {
    if receipt.result.detail.SubmittedRef? then
      var i := FindSubmission(rec.submissions, receipt.result.detail.submissionId);
      if i == |rec.submissions| then Err(Invalid(InvalidCheckpoint))
      else Ok(receipt.result.(detail := Submitted(rec.submissions[i].(acknowledgedBy := []))))
    else Ok(receipt.result)
  }

  // Everything `call` checks before it runs a handler: a refusal, an earlier
  // receipt's result, or nothing when the handler may run.
  function Precheck(rec: Record, q: Request): Option<Result<Answer, Error>> {
    if !Bounded(q.mutationId, 256) then Some(Err(Invalid(InvalidParams)))
    else
      var i := FindReceipt(rec.receipts, q.mutationId);
      if i < |rec.receipts| then
        Some(if rec.receipts[i].request == q then ReceiptResult(rec, rec.receipts[i]) else Err(Conflict(MutationConflict)))
      else if |rec.receipts| >= MAX_MUTATION_RECEIPTS then Some(Err(Invalid(MutationLimit)))
      else if q.generation != rec.generation then Some(Err(Invalid(StaleGeneration)))
      else if q.expectedRevision.Some? && q.expectedRevision.value != rec.revision then Some(Err(Invalid(StaleRevision)))
      else if rec.revision >= U64_MAX then Some(Err(Invalid(RevisionLimit)))
      else None
  }
}
