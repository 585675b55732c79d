// The durable review record, the typed requests that change it and its limits.
module ReviewTypes {
  import opened Wrappers
  import opened Utf8

  const MAX_SNAPSHOT_BYTES := 2 * 1024 * 1024
  const MAX_REVIEW_THREADS := 256
  const MAX_REVIEW_MESSAGES := 1024
  const MAX_REVIEW_CHANGES := 256
  const MAX_MUTATION_RECEIPTS := 512
  const MAX_FEEDBACK_SUBMISSIONS := 128
  const MAX_BODY_BYTES := 32 * 1024
  const MAX_CONSUMERS := 32
  const MAX_REVIEWED_FILES := 4096
  const MAX_REVIEWED_HUNKS := 16384
  const U64_MAX := 0xFFFF_FFFF_FFFF_FFFF

  // The machine-readable part of each error message.
  datatype Code =
    | ConsumerLimit | GenerationLimit | HumanMessageRequired | InvalidAnchor | InvalidCheckpoint
    | InvalidCursor | InvalidDisposition | InvalidLimit | InvalidOrigin | InvalidOutcome | InvalidParams
    | InvalidProgress | InvalidReply | InvalidReviewId | InvalidSource | InvalidSubmission
    | LatestMessageRequired | MessageDeleted | MessageLimit | MessageNotFound | MutationConflict
    | MutationLimit | NoFeedback | ProgressLimit | ReviewBindingMismatch | ReviewNotFound | RevisionLimit
    | SnapshotLimit | SourceChanged | StaleGeneration | StaleRevision | SubmissionLimit | SubmissionNotFound
    | ThreadLimit | ThreadNotFound | VerdictLimit

  // InvalidInput, NotFound and AlreadyExists errors.
  datatype Error = Invalid(code: Code) | Missing(code: Code) | Conflict(code: Code)

  // Closed vocabularies of the wire format; a request may carry any other text.
  datatype Origin = Human | Agent | OtherOrigin(text: string)
  datatype Disposition = Open | Accepted | Dismissed | Blocking | NonBlocking | Fixed | OtherDisposition(text: string)
  datatype Verdict = Back | SubmittedVerdict | Cancelled | OtherVerdict(text: string)

  // A JSON value the store keeps but never looks into, by its encoding.
  datatype Json = JsonNull | JsonValue(encoding: string)

  datatype SourceRange = SourceRange(start: nat, end: nat)
  datatype RangeTarget = RangeTarget(oldSide: Option<SourceRange>, newSide: Option<SourceRange>)
  datatype Anchor = Anchor(file: string, fileScope: bool, hunk: Option<nat>, oldLine: Option<nat>,
                           newLine: Option<nat>, range: Option<RangeTarget>)

  datatype Message = Message(id: string, replyTo: Option<string>, body: string, origin: Origin,
                             author: Option<string>, revision: nat, deleted: bool)
  datatype Thread = Thread(id: string, anchor: Anchor, messages: seq<Message>, generation: nat,
                           stale: bool, disposition: Disposition)
  datatype Submission = Submission(id: string, threadIds: seq<string>, messageIds: seq<string>,
                                   generation: nat, revision: nat, acknowledgedBy: seq<string>,
                                   threads: seq<Thread>)
  datatype Return = Return(outcome: Verdict, submissionIds: seq<string>, revision: nat)
  datatype Change = Change(revision: nat, kind: Kind, entity: Option<string>, generation: nat)
  datatype Progress = Progress(files: seq<string>, hunks: seq<(string, nat)>, verdict: Option<Json>)
  datatype Binding = Binding(harness: string, conversation: string, repository: string)

  // What a mutation asks for, by method.
  datatype Params =
    | Refresh(patch: Str, source: Option<Json>)
    | AddComment(anchor: Anchor, draft: Draft)
    | Reply(threadId: string, replyTo: string, draft: Draft)
    | Edit(messageId: string, body: string)
    | Remove(messageId: string)
    | Submit(threadIds: Option<seq<string>>)
    | Acknowledge(submissionId: string, consumer: Option<string>)
    | Finish(outcome: Verdict, submissionIds: Option<seq<string>>)
    | SetDisposition(threadId: string, disposition: Disposition)
    | SetProgress(update: ProgressUpdate)
    | Reanchor(updates: seq<AnchorUpdate>, progress: Option<ProgressUpdate>)
    | Begin

  datatype Draft = Draft(body: string, origin: Option<Origin>, author: Option<string>)
  datatype AnchorUpdate = AnchorUpdate(threadId: string, anchor: Anchor, stale: bool, generation: Option<nat>)
  datatype ProgressUpdate =
    | MarkFile(file: string, reviewed: bool)
    | Replace(files: Option<seq<string>>, hunks: Option<seq<(string, nat)>>, verdict: Option<Json>)

  datatype Request = Request(reviewId: string, mutationId: string, generation: nat,
                             expectedRevision: Option<nat>, params: Params)

  // A refresh request without the patch bytes its adapter supplies.
  datatype ClientRequest = ClientRequest(reviewId: string, mutationId: string, generation: nat,
                                         expectedRevision: Option<nat>, source: Option<Json>)

  function ClientPart(q: Request): ClientRequest
    requires q.params.Refresh?
  {
    ClientRequest(q.reviewId, q.mutationId, q.generation, q.expectedRevision, q.params.source)
  }

  datatype ThreadView = ThreadView(id: string, anchor: Anchor, generation: nat, stale: bool, disposition: Disposition)

  datatype Detail =
    | Refreshed(changed: bool)
    | Commented(thread: ThreadView, message: Message)
    | Submitted(submission: Submission)
    | SubmittedRef(submissionId: string)  // only inside a receipt
    | Acknowledged(submissionId: string, consumer: string)
    | Finished(outcome: Verdict, submissionIds: seq<string>)
    | Disposed(threadId: string, disposition: Disposition)
    | Progressed(fileCount: nat, hunkCount: nat)
    | Reanchored(count: nat)
    | Begun
  datatype Answer = Answer(reviewId: string, generation: nat, revision: nat, detail: Detail)

  // Request identities are SHA-256 digests in the source; an injective digest
  // determines the request, so the request stands for it here.
  datatype Receipt = Receipt(mutationId: string, request: Request, client: Option<ClientRequest>, result: Answer)

  datatype Record = Record(id: string, binding: Binding, source: Json, generation: nat, revision: nat,
                           patch: Str, threads: seq<Thread>, submissions: seq<Submission>,
                           lastReturn: Option<Return>, changes: seq<Change>, progress: Progress,
                           receipts: seq<Receipt>)

  // What a call takes from outside the record: two ids from `unique_id` and the
  // paths whose patch sections a refresh leaves byte-identical.
  datatype Env = Env(uid1: string, uid2: string, retained: set<string>)

  // The `kind` of a change-log entry: the method that made it.
  datatype Kind =
    | ReviewOpened | ReviewRefresh | CommentAdd | CommentReply | CommentEdit | CommentRemove | FeedbackSubmit
    | FeedbackAck | ReviewFinish | ReviewDisposition | ReviewProgress | ReviewReanchor | ReviewBegin

  function MethodKind(p: Params): Kind {
    match p
    case Refresh(_, _) => ReviewRefresh
    case AddComment(_, _) => CommentAdd
    case Reply(_, _, _) => CommentReply
    case Edit(_, _) => CommentEdit
    case Remove(_) => CommentRemove
    case Submit(_) => FeedbackSubmit
    case Acknowledge(_, _) => FeedbackAck
    case Finish(_, _) => ReviewFinish
    case SetDisposition(_, _) => ReviewDisposition
    case SetProgress(_) => ReviewProgress
    case Reanchor(_, _) => ReviewReanchor
    case Begin => ReviewBegin
  }

  // ---- field validation ----

  function Utf8Size(s: string): nat {
    if s == "" then 0
    else Utf8Size(s[1..]) + (var c := s[0] as int; if c < 0x80 then 1 else if c < 0x800 then 2 else if c < 0x1_0000 then 3 else 4)
  }

  predicate IsSpace(c: char) {
    var n := c as int;
    9 <= n <= 13 || n == 32 || n == 0x85 || n == 0xA0 || n == 0x1680 || 0x2000 <= n <= 0x200A
    || n == 0x2028 || n == 0x2029 || n == 0x202F || n == 0x205F || n == 0x3000
  }

  predicate Bounded(text: string, limit: nat) {
    && (exists k :: 0 <= k < |text| && !IsSpace(text[k]))
    && Utf8Size(text) <= limit
    && '\0' !in text
  }

  predicate BoundedOption(text: Option<string>, limit: nat) {
    text.Some? ==> Bounded(text.value, limit)
  }

  function Split(s: string, c: char): (parts: seq<string>)
    ensures |parts| > 0
  {
    if s == "" then [""]
    else
      var rest := Split(s[1..], c);
      if s[0] == c then [""] + rest else [[s[0]] + rest[0]] + rest[1..]
  }

  // A relative path whose components are all `Normal`: inner empty and "." parts are
  // skipped by the path iterator, a leading "." and any ".." are not.
  predicate NormalPath(file: string)
    requires file != ""
  {
    var parts := Split(file, '/');
    file[0] != '/' && parts[0] != "." && ".." !in parts
  }

  function FileError(file: string): Option<Error> {
    if !Bounded(file, 4096) then Some(Invalid(InvalidParams))
    else if !NormalPath(file) then Some(Invalid(InvalidAnchor))
    else None
  }

  predicate ValidFile(file: string) {
    FileError(file).None?
  }

  predicate ValidSide(side: Option<SourceRange>) {
    side.Some? ==> 0 < side.value.start <= side.value.end
  }

  function AnchorError(a: Anchor): Option<Error> {
    if FileError(a.file).Some? then FileError(a.file)
    else if a.oldLine == Some(0) || a.newLine == Some(0) || a.hunk == Some(0) then Some(Invalid(InvalidAnchor))
    else if a.range.Some? && !(ValidSide(a.range.value.oldSide) && ValidSide(a.range.value.newSide)) then Some(Invalid(InvalidAnchor))
    else None
  }

  predicate ValidAnchor(a: Anchor) {
    AnchorError(a).None?
  }

  predicate ValidId(id: string) {
    |id| == 24 && forall k :: 0 <= k < |id| ==> '0' <= id[k] <= '9' || 'a' <= id[k] <= 'f'
  }

  datatype Entity = ThreadEntity | MessageEntity | SubmissionEntity

  function Prefix(e: Entity): string {
    match e
    case ThreadEntity => "thread-"
    case MessageEntity => "message-"
    case SubmissionEntity => "submission-"
  }

  function EntityId(e: Entity, uid: string): string {
    Prefix(e) + uid
  }

  predicate ValidEntityId(id: string, e: Entity) {
    Prefix(e) <= id && ValidId(id[|Prefix(e)|..])
  }

  // ---- searching a vector for the first entry, |s| when there is none ----

  function FindThread(threads: seq<Thread>, id: string): (i: nat)
    ensures i <= |threads|
    ensures i < |threads| ==> threads[i].id == id
    ensures forall k :: 0 <= k < i ==> threads[k].id != id
  {
    if threads == [] || threads[0].id == id then 0 else 1 + FindThread(threads[1..], id)
  }

  function FindMessage(messages: seq<Message>, id: string): (i: nat)
    ensures i <= |messages|
    ensures i < |messages| ==> messages[i].id == id
    ensures forall k :: 0 <= k < i ==> messages[k].id != id
  {
    if messages == [] || messages[0].id == id then 0 else 1 + FindMessage(messages[1..], id)
  }

  function FindThreadOf(threads: seq<Thread>, messageId: string): (i: nat)
    ensures i <= |threads|
    ensures i < |threads| ==> FindMessage(threads[i].messages, messageId) < |threads[i].messages|
    ensures forall k :: 0 <= k < i ==> FindMessage(threads[k].messages, messageId) == |threads[k].messages|
  {
    if threads == [] || FindMessage(threads[0].messages, messageId) < |threads[0].messages| then 0
    else 1 + FindThreadOf(threads[1..], messageId)
  }

  function FindSubmission(submissions: seq<Submission>, id: string): (i: nat)
    ensures i <= |submissions|
    ensures i < |submissions| ==> submissions[i].id == id
    ensures forall k :: 0 <= k < i ==> submissions[k].id != id
  {
    if submissions == [] || submissions[0].id == id then 0 else 1 + FindSubmission(submissions[1..], id)
  }

  function FindReceipt(receipts: seq<Receipt>, mutationId: string): (i: nat)
    ensures i <= |receipts|
    ensures i < |receipts| ==> receipts[i].mutationId == mutationId
    ensures forall k :: 0 <= k < i ==> receipts[k].mutationId != mutationId
  {
    if receipts == [] || receipts[0].mutationId == mutationId then 0 else 1 + FindReceipt(receipts[1..], mutationId)
  }

  function TotalMessages(threads: seq<Thread>): nat {
    if threads == [] then 0 else TotalMessages(threads[..|threads| - 1]) + |threads[|threads| - 1].messages|
  }
}
