// What `validate_record` accepts, the stronger invariant that every reachable
// record satisfies, and the proof that each mutation keeps it.
module ReviewInvariant {
  import opened Wrappers
  import opened Utf8
  import opened ReviewTypes
  import opened ReviewHandlers

  // ---- validate_record ----

  predicate ValidMessage(m: Message, revision: nat) {
    && ValidEntityId(m.id, MessageEntity)
    && (m.deleted || Bounded(m.body, MAX_BODY_BYTES))
    && BoundedOption(m.author, 256)
    && m.revision <= revision
    && !m.origin.OtherOrigin?
  }

  predicate RepliesBack(messages: seq<Message>) {
    forall a :: 0 <= a < |messages| && messages[a].replyTo.Some? ==>
      exists b :: 0 <= b < a && messages[b].id == messages[a].replyTo.value
  }

  predicate ValidThread(t: Thread, revision: nat) {
    && ValidEntityId(t.id, ThreadEntity)
    && t.messages != []
    && ValidAnchor(t.anchor)
    && (forall a :: 0 <= a < |t.messages| ==> ValidMessage(t.messages[a], revision))
    && RepliesBack(t.messages)
  }

  predicate DistinctThreads(threads: seq<Thread>) {
    forall i, j :: 0 <= i < j < |threads| ==> threads[i].id != threads[j].id
  }

  predicate DistinctWithin(ms: seq<Message>) {
    forall a, b :: 0 <= a < b < |ms| ==> ms[a].id != ms[b].id
  }

  predicate Apart(ms: seq<Message>, ns: seq<Message>) {
    forall a, b :: 0 <= a < |ms| && 0 <= b < |ns| ==> ms[a].id != ns[b].id
  }

  // Message ids are unique across all threads.
  predicate DistinctMessages(threads: seq<Thread>) {
    && (forall i :: 0 <= i < |threads| ==> DistinctWithin(threads[i].messages))
    && forall i, j :: 0 <= i < |threads| && 0 <= j < |threads| && i != j ==> Apart(threads[i].messages, threads[j].messages)
  }

  predicate ValidThreads(threads: seq<Thread>, revision: nat) {
    && |threads| <= MAX_REVIEW_THREADS
    && TotalMessages(threads) <= MAX_REVIEW_MESSAGES
    && DistinctThreads(threads)
    && DistinctMessages(threads)
    && forall i :: 0 <= i < |threads| ==> ValidThread(threads[i], revision)
  }

  predicate HasThread(threads: seq<Thread>, id: string) {
    exists i :: 0 <= i < |threads| && threads[i].id == id
  }

  predicate HasMessage(threads: seq<Thread>, id: string) {
    exists i :: 0 <= i < |threads| && HasId(threads[i].messages, id)
  }

  predicate ValidSubmission(s: Submission, threads: seq<Thread>, generation: nat, revision: nat) {
    && ValidEntityId(s.id, SubmissionEntity)
    && 0 < s.generation <= generation
    && s.revision <= revision
    && (forall id :: id in s.threadIds ==> HasThread(threads, id))
    && (forall id :: id in s.messageIds ==> HasMessage(threads, id))
    && |s.acknowledgedBy| <= MAX_CONSUMERS
  }

  predicate ValidSubmissions(submissions: seq<Submission>, threads: seq<Thread>, generation: nat, revision: nat) {
    && |submissions| <= MAX_FEEDBACK_SUBMISSIONS
    && (forall i, j :: 0 <= i < j < |submissions| ==> submissions[i].id != submissions[j].id)
    && forall i :: 0 <= i < |submissions| ==> ValidSubmission(submissions[i], threads, generation, revision)
  }

  predicate ValidChanges(changes: seq<Change>, generation: nat, revision: nat) {
    && |changes| <= MAX_REVIEW_CHANGES
    && (forall i, j :: 0 <= i < j < |changes| ==> changes[i].revision < changes[j].revision)
    && forall i :: 0 <= i < |changes| ==> 0 < changes[i].revision <= revision && 0 < changes[i].generation <= generation
  }

  predicate ValidReceipts(receipts: seq<Receipt>) {
    && |receipts| <= MAX_MUTATION_RECEIPTS
    && (forall i, j :: 0 <= i < j < |receipts| ==> receipts[i].mutationId != receipts[j].mutationId)
    && forall i :: 0 <= i < |receipts| ==> Bounded(receipts[i].mutationId, 256)
  }

  predicate ValidProgress(p: Progress) {
    && |p.files| <= MAX_REVIEWED_FILES && |p.hunks| <= MAX_REVIEWED_HUNKS
    && (forall f :: f in p.files ==> ValidFile(f))
    && forall h :: h in p.hunks ==> ValidFile(h.0) && 0 < h.1
  }

  predicate VerdictFits(p: Progress) {
    p.verdict.Some? && p.verdict.value.JsonValue? ==> Utf8Size(p.verdict.value.encoding) <= 8192
  }

  // What a progress update is checked for; of a loaded record the verdict is not.
  predicate GoodProgress(p: Progress) {
    ValidProgress(p) && VerdictFits(p)
  }

  predicate ValidHeader(r: Record) {
    && ValidId(r.id)
    && |r.patch| <= MAX_SNAPSHOT_BYTES
    && Bounded(r.binding.harness, 128)
    && Bounded(r.binding.conversation, 1024)
    && "/" <= r.binding.repository
    && r.source.JsonValue? && Utf8Size(r.source.encoding) <= 16 * 1024
    && 0 < r.generation && 0 < r.revision
  }

  predicate ValidRecord(r: Record) {
    && ValidHeader(r)
    && ValidThreads(r.threads, r.revision)
    && ValidSubmissions(r.submissions, r.threads, r.generation, r.revision)
    && ValidChanges(r.changes, r.generation, r.revision)
    && ValidReceipts(r.receipts)
    && ValidProgress(r.progress)
  }

  // ---- the invariant ----

  // A version of a message that a reader can meet: live, or in a submission.
  predicate Version(r: Record, m: Message) {
    InThreads(r.threads, m) || exists k :: 0 <= k < |r.submissions| && InThreads(r.submissions[k].threads, m)
  }

  ghost predicate OneContent(r: Record) {
    forall m, n :: Version(r, m) && Version(r, n) && m.id == n.id && m.revision == n.revision ==> m == n
  }

  predicate Current(threads: seq<Thread>, generation: nat) {
    forall i :: 0 <= i < |threads| ==> threads[i].generation <= generation && (!threads[i].stale ==> threads[i].generation == generation)
  }

  // The change log: the last revisions, without a gap, up to the current one.
  predicate GapFree(r: Record) {
    && |r.changes| == (if r.revision < MAX_REVIEW_CHANGES then r.revision else MAX_REVIEW_CHANGES)
    && forall i :: 0 <= i < |r.changes| ==> r.changes[i].revision == r.revision - |r.changes| + 1 + i
  }

  predicate Snapshots(submissions: seq<Submission>) {
    forall k :: 0 <= k < |submissions| ==>
      submissions[k].threadIds == ThreadIds(submissions[k].threads) && DistinctThreads(submissions[k].threads)
  }

  // An acknowledgement that was accepted is on its submission.
  predicate AckRecorded(submissions: seq<Submission>, p: Params) {
    p.Acknowledge? ==>
      var i := FindSubmission(submissions, p.submissionId);
      i < |submissions| && Consumer(p.consumer) in submissions[i].acknowledgedBy
  }

  predicate ReceiptOk(r: Record, receipt: Receipt) {
    && AckRecorded(r.submissions, receipt.request.params)
    && receipt.mutationId == receipt.request.mutationId
    && receipt.client == (if receipt.request.params.Refresh? then Some(ClientPart(receipt.request)) else None)
    && !receipt.result.detail.Submitted?
    && (receipt.result.detail.SubmittedRef? ==> FindSubmission(r.submissions, receipt.result.detail.submissionId) < |r.submissions|)
  }

  predicate ReturnOk(r: Record) {
    r.lastReturn.Some? ==>
      && (r.lastReturn.value.outcome == SubmittedVerdict <==> r.lastReturn.value.submissionIds != [])
      && AllSubmittedNow(r, r.lastReturn.value.submissionIds)
  }

  // The part of the invariant that handlers work on.
  ghost predicate Core(r: Record) {
    && |r.patch| <= MAX_SNAPSHOT_BYTES
    && ValidThreads(r.threads, r.revision)
    && ValidSubmissions(r.submissions, r.threads, r.generation, r.revision)
    && GoodProgress(r.progress)
    && Current(r.threads, r.generation)
    && Snapshots(r.submissions)
    && ReturnOk(r)
    && forall m :: Version(r, m) ==> m.revision <= r.revision
  }

  ghost predicate Inv(r: Record) {
    && ValidRecord(r)
    && Core(r)
    && r.revision == |r.receipts| + 1
    && GapFree(r)
    && OneContent(r)
    && forall i :: 0 <= i < |r.receipts| ==> ReceiptOk(r, r.receipts[i])
  }

  // The ids `unique_id` supplies are well formed and not in use.
  predicate FreshIds(r: Record, env: Env) {
    && ValidId(env.uid1) && ValidId(env.uid2)
    && !HasThread(r.threads, EntityId(ThreadEntity, env.uid2))
    && !HasMessage(r.threads, EntityId(MessageEntity, env.uid1))
    && FindSubmission(r.submissions, EntityId(SubmissionEntity, env.uid1)) == |r.submissions|
  }

  // ---- what a run never changes ----

  predicate SameSubmission(s: Submission, t: Submission) {
    t.(acknowledgedBy := s.acknowledgedBy) == s && s.acknowledgedBy <= t.acknowledgedBy
  }

  predicate SubmissionsKept(before: seq<Submission>, after: seq<Submission>) {
    |before| <= |after| && forall k :: 0 <= k < |before| ==> SameSubmission(before[k], after[k])
  }

  predicate IdsKept(before: seq<Message>, after: seq<Message>) {
    |before| <= |after| && forall a :: 0 <= a < |before| ==> before[a].id == after[a].id
  }

  predicate ThreadsKept(before: seq<Thread>, after: seq<Thread>) {
    |before| <= |after| && forall i :: 0 <= i < |before| ==>
      before[i].id == after[i].id && IdsKept(before[i].messages, after[i].messages)
  }

  // From one record to a later one: nothing that was delivered or promised changes.
  ghost predicate Evolves(r: Record, s: Record) {
    && r.id == s.id && r.binding == s.binding && r.source == s.source
    && r.revision <= s.revision && r.generation <= s.generation
    && r.receipts <= s.receipts
    && ThreadsKept(r.threads, s.threads)
    && SubmissionsKept(r.submissions, s.submissions)
    && (forall m :: Version(s, m) && m.revision <= r.revision ==> Version(r, m))
    && forall i :: 0 <= i < |s.changes| && s.changes[i].revision <= r.revision ==> s.changes[i] in r.changes
  }

  lemma {:induction false} EvolvesTransitive(r: Record, s: Record, t: Record)
    requires Evolves(r, s) && Evolves(s, t)
    ensures Evolves(r, t)
  {
    forall i | 0 <= i < |r.threads| ensures r.threads[i].id == t.threads[i].id && IdsKept(r.threads[i].messages, t.threads[i].messages) {
      assert IdsKept(r.threads[i].messages, s.threads[i].messages) && IdsKept(s.threads[i].messages, t.threads[i].messages);
    }
    forall k | 0 <= k < |r.submissions| ensures SameSubmission(r.submissions[k], t.submissions[k]) {
      assert SameSubmission(r.submissions[k], s.submissions[k]) && SameSubmission(s.submissions[k], t.submissions[k]);
    }
  }

  // ---- what each handler owes ----

  // The record a handler leaves, before `call` completes it.
  ghost predicate HandlerPost(r: Record, h: Record, revision: nat) {
    && h == r.(generation := h.generation, patch := h.patch, threads := h.threads, submissions := h.submissions,
               lastReturn := h.lastReturn, progress := h.progress)
    && |h.patch| <= MAX_SNAPSHOT_BYTES
    && h.generation == r.generation + (if h.patch != r.patch then 1 else 0)
    && ValidThreads(h.threads, revision)
    && ThreadsKept(r.threads, h.threads)
    && Current(h.threads, h.generation)
    && ValidSubmissions(h.submissions, h.threads, h.generation, revision)
    && SubmissionsKept(r.submissions, h.submissions)
    && Snapshots(h.submissions)
    && GoodProgress(h.progress)
    && ReturnOk(h)
    && (forall m :: Version(h, m) && m.revision != revision ==> Version(r, m))
    && (forall m :: Version(h, m) ==> m.revision <= revision)
    && forall m, n :: Version(h, m) && Version(h, n) && m.revision == n.revision == revision && m.id == n.id ==> m == n
  }

  lemma {:induction false} TotalOfUpdate(threads: seq<Thread>, i: nat, t: Thread)
    requires i < |threads|
    ensures TotalMessages(threads[i := t]) == TotalMessages(threads) - |threads[i].messages| + |t.messages|
    decreases |threads|
  {
    var last := |threads| - 1;
    if i == last {
      assert threads[i := t][..last] == threads[..last];
    } else {
      assert threads[i := t][..last] == threads[..last][i := t];
      TotalOfUpdate(threads[..last], i, t);
    }
  }

  lemma {:induction false} TotalOfSameLengths(ts: seq<Thread>, us: seq<Thread>)
    requires |ts| == |us| && forall i :: 0 <= i < |ts| ==> |ts[i].messages| == |us[i].messages|
    ensures TotalMessages(ts) == TotalMessages(us)
    decreases |ts|
  {
    if ts != [] {
      var last := |ts| - 1;
      TotalOfSameLengths(ts[..last], us[..last]);
    }
  }

  predicate SameMessages(before: seq<Thread>, after: seq<Thread>) {
    |before| == |after| && forall i :: 0 <= i < |before| ==> before[i].id == after[i].id && before[i].messages == after[i].messages
  }

  // Submissions do not name threads or messages that ThreadsKept could lose.
  lemma {:induction false} ValidSubmissionsKept(submissions: seq<Submission>, before: seq<Thread>, after: seq<Thread>, g: nat, g': nat, n: nat, n': nat)
    requires ValidSubmissions(submissions, before, g, n) && ThreadsKept(before, after) && g <= g' && n <= n'
    ensures ValidSubmissions(submissions, after, g', n')
  {
    forall id | HasThread(before, id) ensures HasThread(after, id) {
      var i :| 0 <= i < |before| && before[i].id == id;
      assert after[i].id == id;
    }
    forall id | HasMessage(before, id) ensures HasMessage(after, id) {
      var i :| 0 <= i < |before| && HasId(before[i].messages, id);
      assert IdsKept(before[i].messages, after[i].messages);
      assert HasId(after[i].messages, id);
    }
    forall i | 0 <= i < |submissions| ensures ValidSubmission(submissions[i], after, g', n') {
      assert ValidSubmission(submissions[i], before, g, n);
    }
  }

  lemma {:induction false} SameMessagesKeepThreads(before: seq<Thread>, after: seq<Thread>, n: nat, n': nat)
    requires ValidThreads(before, n) && SameMessages(before, after) && n <= n'
    requires forall i :: 0 <= i < |after| ==> ValidAnchor(after[i].anchor)
    ensures ValidThreads(after, n') && ThreadsKept(before, after)
    ensures forall m :: InThreads(after, m) <==> InThreads(before, m)
  {
    TotalOfSameLengths(before, after);
    forall i | 0 <= i < |after| ensures ValidThread(after[i], n') {
      assert ValidThread(before[i], n);
    }
  }

  lemma {:induction false} ValidAnchors(threads: seq<Thread>, n: nat)
    requires ValidThreads(threads, n)
    ensures forall i :: 0 <= i < |threads| ==> ValidAnchor(threads[i].anchor)
  {
    forall i | 0 <= i < |threads| ensures ValidAnchor(threads[i].anchor) {
      assert ValidThread(threads[i], n);
    }
  }

  // A handler that leaves all messages and submissions alone.
  lemma {:induction false} QuietPost(r: Record, h: Record, revision: nat)
    requires Core(r) && revision == r.revision + 1
    requires h == r.(generation := h.generation, patch := h.patch, threads := h.threads, lastReturn := h.lastReturn, progress := h.progress)
    requires |h.patch| <= MAX_SNAPSHOT_BYTES && h.generation == r.generation + (if h.patch != r.patch then 1 else 0)
    requires SameMessages(r.threads, h.threads) && Current(h.threads, h.generation)
    requires forall i :: 0 <= i < |h.threads| ==> ValidAnchor(h.threads[i].anchor)
    requires GoodProgress(h.progress) && ReturnOk(h)
    ensures HandlerPost(r, h, revision)
  {
    SameMessagesKeepThreads(r.threads, h.threads, r.revision, revision);
    ValidSubmissionsKept(r.submissions, r.threads, h.threads, r.generation, h.generation, r.revision, revision);
    assert forall m :: Version(h, m) <==> Version(r, m);
  }

  lemma {:induction false} RefreshPost(r: Record, patch: Str, source: Option<Json>, retained: set<string>, revision: nat)
    requires Core(r) && revision == r.revision + 1
    requires DoRefresh(r, patch, source, retained).Done?
    ensures HandlerPost(r, DoRefresh(r, patch, source, retained).record, revision)
  {
    hide ValidThreads, ValidSubmissions, Snapshots, Version, ValidAnchor, HandlerPost;
    var h := DoRefresh(r, patch, source, retained).record;
    ValidAnchors(r.threads, r.revision);
    QuietPost(r, h, revision);
  }

  lemma {:induction false} DispositionPost(r: Record, threadId: string, disposition: Disposition, revision: nat)
    requires Core(r) && revision == r.revision + 1
    requires DoDisposition(r, threadId, disposition).Done?
    ensures HandlerPost(r, DoDisposition(r, threadId, disposition).record, revision)
  {
    hide ValidThreads, ValidSubmissions, Snapshots, Version, ValidAnchor, HandlerPost, GoodProgress;
    var h := DoDisposition(r, threadId, disposition).record;
    ValidAnchors(r.threads, r.revision);
    QuietPost(r, h, revision);
  }

  lemma {:induction false} FilesErrorNone(files: seq<string>)
    ensures FilesError(files).None? <==> forall f :: f in files ==> ValidFile(f)
    decreases |files|
  {
    hide FileError;
    if files != [] {
      FilesErrorNone(files[1..]);
      assert files[0] in files;
      assert forall f :: f in files <==> f == files[0] || f in files[1..];
    }
  }

  lemma {:induction false} HunksErrorNone(hunks: seq<(string, nat)>)
    ensures HunksError(hunks).None? <==> forall h :: h in hunks ==> ValidFile(h.0) && 0 < h.1
    decreases |hunks|
  {
    hide FileError;
    if hunks != [] {
      HunksErrorNone(hunks[1..]);
      assert hunks[0] in hunks;
      assert forall h :: h in hunks <==> h == hunks[0] || h in hunks[1..];
    }
  }

  // The checks after a progress update refuse exactly what is out of bounds.
  lemma {:induction false} ProgressErrorIs(p: Progress)
    ensures ProgressError(p).None? <==> GoodProgress(p)
  {
    hide FileError, FilesError, HunksError;
    FilesErrorNone(p.files);
    HunksErrorNone(p.hunks);
  }

  lemma {:induction false} ProgressPost(r: Record, u: ProgressUpdate, revision: nat)
    requires Core(r) && revision == r.revision + 1
    requires DoProgress(r, u).Done?
    ensures HandlerPost(r, DoProgress(r, u).record, revision)
  {
    hide GoodProgress, ProgressError, UpdatedProgress, FileError;
    var h := DoProgress(r, u).record;
    ProgressErrorIs(h.progress);
    ValidAnchors(r.threads, r.revision);
    QuietPost(r, h, revision);
  }

  lemma {:induction false} ReanchorKeeps(threads: seq<Thread>, updates: seq<AnchorUpdate>, generation: nat, seen: set<string>)
    requires ReanchorThreads(threads, updates, generation, seen).Ok?
    requires Current(threads, generation)
    requires forall i :: 0 <= i < |threads| ==> ValidAnchor(threads[i].anchor)
    ensures var after := ReanchorThreads(threads, updates, generation, seen).value;
            && SameMessages(threads, after) && Current(after, generation)
            && forall i :: 0 <= i < |after| ==> ValidAnchor(after[i].anchor)
    decreases |updates|
  {
    if updates != [] {
      var u := updates[0];
      var i := FindThread(threads, u.threadId);
      ReanchorKeeps(threads[i := threads[i].(anchor := u.anchor, stale := u.stale, generation := generation)],
                    updates[1..], generation, seen + {u.threadId});
    }
  }

  lemma {:induction false} ReanchorPost(r: Record, updates: seq<AnchorUpdate>, progress: Option<ProgressUpdate>, revision: nat)
    requires Core(r) && revision == r.revision + 1
    requires DoReanchor(r, updates, progress).Done?
    ensures HandlerPost(r, DoReanchor(r, updates, progress).record, revision)
  {
    hide ValidThreads, ValidSubmissions, Snapshots, Version, ValidAnchor, HandlerPost;
    var h := DoReanchor(r, updates, progress).record;
    ValidAnchors(r.threads, r.revision);
    ReanchorKeeps(r.threads, updates, r.generation, {});
    hide GoodProgress, ProgressError, UpdatedProgress, FileError;
    ProgressErrorIs(h.progress);
    QuietPost(r, h, revision);
  }

  lemma {:induction false} FinishPost(r: Record, outcome: Verdict, ids: Option<seq<string>>, revision: nat)
    requires Core(r) && revision == r.revision + 1
    requires DoFinish(r, outcome, ids, revision).Done?
    ensures HandlerPost(r, DoFinish(r, outcome, ids, revision).record, revision)
  {
    var h := DoFinish(r, outcome, ids, revision).record;
    forall i | 0 <= i < |h.threads| ensures ValidAnchor(h.threads[i].anchor) {
      assert ValidThread(r.threads[i], r.revision);
    }
    var given := if ids.Some? then ids.value else [];
    forall k | 0 <= k < |given| ensures SubmittedNow(h, given[k]) {
      assert SubmittedNow(r, given[k]);
    }
    QuietPost(r, h, revision);
  }

  lemma {:induction false} BeginPost(r: Record, revision: nat)
    requires Core(r) && revision == r.revision + 1
    ensures HandlerPost(r, r.(lastReturn := None), revision)
  {
    ValidAnchors(r.threads, r.revision);
    QuietPost(r, r.(lastReturn := None), revision);
  }

  // A handler that changes threads and adds or replaces one message, `added`.
  lemma {:induction false} NewVersionPost(r: Record, h: Record, revision: nat, added: Message)
    requires Core(r) && revision == r.revision + 1 && h == r.(threads := h.threads)
    requires ValidThreads(h.threads, revision) && Current(h.threads, h.generation)
    requires ThreadsKept(r.threads, h.threads)
    requires added.revision == revision
    requires forall m :: InThreads(h.threads, m) ==> m == added || InThreads(r.threads, m)
    ensures HandlerPost(r, h, revision)
  {
    ValidSubmissionsKept(r.submissions, r.threads, h.threads, r.generation, h.generation, r.revision, revision);
    forall m | Version(h, m) ensures m == added || Version(r, m) {}
  }

  lemma {:induction false} EntityIdValid(e: Entity, uid: string)
    requires ValidId(uid)
    ensures ValidEntityId(EntityId(e, uid), e)
  {
    assert EntityId(e, uid)[|Prefix(e)|..] == uid;
  }

  // A thread with unused ids joins at the end.
  lemma {:induction false} AppendThread(ts: seq<Thread>, t: Thread, n: nat, n': nat)
    requires ValidThreads(ts, n) && n <= n' && |ts| < MAX_REVIEW_THREADS && TotalMessages(ts) < MAX_REVIEW_MESSAGES
    requires ValidThread(t, n') && |t.messages| == 1 && !HasThread(ts, t.id) && !HasMessage(ts, t.messages[0].id)
    ensures ValidThreads(ts + [t], n')
  {
    hide Bounded, BoundedOption, ValidEntityId, ValidAnchor, RepliesBack;
    var us := ts + [t];
    assert us[..|ts|] == ts;
    forall i | 0 <= i < |ts| ensures Apart(ts[i].messages, t.messages) && ValidThread(ts[i], n') {
      assert ValidThread(ts[i], n);
      assert !HasId(ts[i].messages, t.messages[0].id);
    }
  }

  lemma {:induction false} AppendedThread(ts: seq<Thread>, t: Thread)
    requires |t.messages| == 1
    ensures ThreadsKept(ts, ts + [t])
    ensures forall m :: InThreads(ts + [t], m) ==> m == t.messages[0] || InThreads(ts, m)
  {
  }

  lemma {:induction false} AddPost(r: Record, anchor: Anchor, d: Draft, revision: nat, env: Env)
    requires Core(r) && revision == r.revision + 1 && FreshIds(r, env)
    requires DoAdd(r, anchor, d, revision, env).Done?
    ensures HandlerPost(r, DoAdd(r, anchor, d, revision, env).record, revision)
  {
    hide ValidThreads, ValidSubmissions, Snapshots, Version, HandlerPost, GoodProgress, ReturnOk, ThreadsKept, EntityId;
    var h := DoAdd(r, anchor, d, revision, env).record;
    var m := NewMessage(d, revision, None, env.uid1);
    var t := Thread(EntityId(ThreadEntity, env.uid2), anchor, [m], r.generation, false, Disposition.Open);
    EntityIdValid(MessageEntity, env.uid1);
    EntityIdValid(ThreadEntity, env.uid2);
    AppendThread(r.threads, t, r.revision, revision);
    AppendedThread(r.threads, t);
    NewVersionPost(r, h, revision, m);
  }

  // Thread `i` gets other messages; nothing else moves.
  lemma {:induction false} ChangeThread(ts: seq<Thread>, i: nat, t: Thread, n: nat, n': nat)
    requires ValidThreads(ts, n) && n <= n' && i < |ts|
    requires ValidThread(t, n') && t.id == ts[i].id && DistinctWithin(t.messages)
    requires TotalMessages(ts) - |ts[i].messages| + |t.messages| <= MAX_REVIEW_MESSAGES
    requires forall j :: 0 <= j < |ts| && j != i ==> Apart(ts[j].messages, t.messages)
    ensures ValidThreads(ts[i := t], n')
  {
    hide Bounded, BoundedOption, ValidEntityId, ValidAnchor, RepliesBack;
    var us := ts[i := t];
    TotalOfUpdate(ts, i, t);
    forall j | 0 <= j < |us| ensures ValidThread(us[j], n') {
      assert ValidThread(ts[j], n);
    }
  }

  // A message with an unused id, answering an earlier one, joins thread `i`.
  lemma {:induction false} AppendMessage(ts: seq<Thread>, i: nat, m: Message, n: nat, n': nat)
    requires ValidThreads(ts, n) && n <= n' && i < |ts| && TotalMessages(ts) < MAX_REVIEW_MESSAGES
    requires ValidMessage(m, n') && !HasMessage(ts, m.id)
    requires m.replyTo.Some? && FindMessage(ts[i].messages, m.replyTo.value) < |ts[i].messages|
    ensures ValidThreads(ts[i := ts[i].(messages := ts[i].messages + [m])], n')
  {
    hide Bounded, BoundedOption, ValidEntityId, ValidAnchor, RepliesBack;
    var t := ts[i].(messages := ts[i].messages + [m]);
    assert ValidThread(ts[i], n);
    AppendReply(ts[i].messages, m);
    forall j | 0 <= j < |ts| ensures !HasId(ts[j].messages, m.id) {}
    assert ValidThread(t, n');
    forall j | 0 <= j < |ts| && j != i ensures Apart(ts[j].messages, t.messages) {
      assert Apart(ts[j].messages, ts[i].messages);
    }
    ChangeThread(ts, i, t, n, n');
  }

  // What changing thread `i` by one message, new or next version, means to a reader.
  lemma {:induction false} ChangedMessages(ts: seq<Thread>, i: nat, t: Thread, m: Message)
    requires i < |ts| && t.id == ts[i].id && IdsKept(ts[i].messages, t.messages)
    requires forall x :: x in t.messages ==> x == m || x in ts[i].messages
    ensures ThreadsKept(ts, ts[i := t])
    ensures forall x :: InThreads(ts[i := t], x) ==> x == m || InThreads(ts, x)
  {
  }

  lemma {:induction false} AppendReply(ms: seq<Message>, m: Message)
    requires RepliesBack(ms) && m.replyTo.Some? && FindMessage(ms, m.replyTo.value) < |ms|
    ensures RepliesBack(ms + [m])
  {
    var ns := ms + [m];
    forall a | 0 <= a < |ns| && ns[a].replyTo.Some? ensures exists b :: 0 <= b < a && ns[b].id == ns[a].replyTo.value {
      if a < |ms| {
        var b :| 0 <= b < a && ms[b].id == ms[a].replyTo.value;
        assert ns[b] == ms[b];
      } else {
        assert ns[FindMessage(ms, m.replyTo.value)].id == m.replyTo.value;
      }
    }
  }

  lemma {:induction false} ReplyPost(r: Record, threadId: string, replyTo: string, d: Draft, revision: nat, env: Env)
    requires Core(r) && revision == r.revision + 1 && FreshIds(r, env)
    requires DoReply(r, threadId, replyTo, d, revision, env).Done?
    ensures HandlerPost(r, DoReply(r, threadId, replyTo, d, revision, env).record, revision)
  {
    EntityIdValid(MessageEntity, env.uid1);
    ReplyAt(r, FindThread(r.threads, threadId), NewMessage(d, revision, Some(replyTo), env.uid1), revision);
  }

  lemma {:induction false} ReplyAt(r: Record, i: nat, m: Message, revision: nat)
    requires Core(r) && revision == r.revision + 1 && i < |r.threads| && TotalMessages(r.threads) < MAX_REVIEW_MESSAGES
    requires ValidMessage(m, revision) && m.revision == revision && !HasMessage(r.threads, m.id)
    requires m.replyTo.Some? && FindMessage(r.threads[i].messages, m.replyTo.value) < |r.threads[i].messages|
    ensures HandlerPost(r, r.(threads := r.threads[i := r.threads[i].(messages := r.threads[i].messages + [m])]), revision)
  {
    hide ValidSubmissions, Snapshots, HandlerPost, GoodProgress, ReturnOk, ThreadsKept, ValidThreads, ValidMessage, InThreads;
    var t := r.threads[i].(messages := r.threads[i].messages + [m]);
    AppendMessage(r.threads, i, m, r.revision, revision);
    ChangedMessages(r.threads, i, t, m);
    NewVersionPost(r, r.(threads := r.threads[i := t]), revision, m);
  }

  // Message `k` of thread `i` gives way to its next version.
  lemma {:induction false} ReplaceMessage(ts: seq<Thread>, i: nat, k: nat, m: Message, n: nat, n': nat)
    requires ValidThreads(ts, n) && n <= n' && i < |ts| && k < |ts[i].messages|
    requires ValidMessage(m, n') && m.id == ts[i].messages[k].id && m.replyTo == ts[i].messages[k].replyTo
    ensures ValidThreads(ts[i := ts[i].(messages := ts[i].messages[k := m])], n')
  {
    hide Bounded, BoundedOption, ValidEntityId, ValidAnchor, RepliesBack;
    var t := ts[i].(messages := ts[i].messages[k := m]);
    assert ValidThread(ts[i], n);
    SameIdsReply(ts[i].messages, t.messages);
    assert ValidThread(t, n');
    forall j | 0 <= j < |ts| && j != i ensures Apart(ts[j].messages, t.messages) {
      assert Apart(ts[j].messages, ts[i].messages);
    }
    ChangeThread(ts, i, t, n, n');
  }

  predicate SameIds(ms: seq<Message>, ns: seq<Message>) {
    |ms| == |ns| && forall a :: 0 <= a < |ms| ==> ms[a].id == ns[a].id && ms[a].replyTo == ns[a].replyTo
  }

  lemma {:induction false} SameIdsReply(ms: seq<Message>, ns: seq<Message>)
    requires RepliesBack(ms) && SameIds(ms, ns)
    ensures RepliesBack(ns)
  {
    forall a | 0 <= a < |ns| && ns[a].replyTo.Some? ensures exists b :: 0 <= b < a && ns[b].id == ns[a].replyTo.value {
      var b :| 0 <= b < a && ms[b].id == ms[a].replyTo.value;
      assert ns[b].id == ms[b].id;
    }
  }

  // Edit and remove both replace one message by its next version.
  lemma {:induction false} ReplacePost(r: Record, i: nat, k: nat, m: Message, revision: nat)
    requires Core(r) && revision == r.revision + 1
    requires i < |r.threads| && k < |r.threads[i].messages|
    requires var o := r.threads[i].messages[k]; m == o.(body := m.body, deleted := m.deleted, revision := revision)
    requires m.deleted || Bounded(m.body, MAX_BODY_BYTES)
    ensures HandlerPost(r, r.(threads := r.threads[i := r.threads[i].(messages := r.threads[i].messages[k := m])]), revision)
  {
    var h := r.(threads := r.threads[i := r.threads[i].(messages := r.threads[i].messages[k := m])]);
    hide ValidSubmissions, Snapshots, Version, HandlerPost, GoodProgress, ReturnOk, ThreadsKept, Bounded, BoundedOption,
      ValidEntityId, ValidAnchor, RepliesBack;
    assert ValidThread(r.threads[i], r.revision);
    ReplaceMessage(r.threads, i, k, m, r.revision, revision);
    ChangedMessages(r.threads, i, h.threads[i], m);
    NewVersionPost(r, h, revision, m);
  }

  lemma {:induction false} EditPost(r: Record, messageId: string, body: string, revision: nat)
    requires Core(r) && revision == r.revision + 1
    requires DoEdit(r, messageId, body, revision).Done?
    ensures HandlerPost(r, DoEdit(r, messageId, body, revision).record, revision)
  {
    hide Core, HandlerPost;
    var i := FindThreadOf(r.threads, messageId);
    var k := FindMessage(r.threads[i].messages, messageId);
    ReplacePost(r, i, k, r.threads[i].messages[k].(body := body, revision := revision), revision);
  }

  lemma {:induction false} RemovePost(r: Record, messageId: string, revision: nat)
    requires Core(r) && revision == r.revision + 1
    requires DoRemove(r, messageId, revision).Done?
    ensures HandlerPost(r, DoRemove(r, messageId, revision).record, revision)
  {
    hide Core, HandlerPost;
    var i := FindThreadOf(r.threads, messageId);
    var k := FindMessage(r.threads[i].messages, messageId);
    ReplacePost(r, i, k, r.threads[i].messages[k].(body := "", deleted := true, revision := revision), revision);
  }

  lemma {:induction false} NewsDistinct(threads: seq<Thread>, selected: Option<seq<string>>, submissions: seq<Submission>)
    requires DistinctThreads(threads)
    ensures DistinctThreads(News(threads, selected, submissions))
    decreases |threads|
  {
    if threads != [] {
      NewsDistinct(threads[..|threads| - 1], selected, submissions);
    }
  }

  // A handler that leaves the threads alone and adds no message content.
  lemma {:induction false} SubmissionPost(r: Record, h: Record, revision: nat)
    requires Core(r) && revision == r.revision + 1 && h == r.(submissions := h.submissions)
    requires ValidSubmissions(h.submissions, r.threads, r.generation, revision)
    requires SubmissionsKept(r.submissions, h.submissions) && Snapshots(h.submissions)
    requires forall k, m :: 0 <= k < |h.submissions| && InThreads(h.submissions[k].threads, m) ==> Version(r, m)
    ensures HandlerPost(r, h, revision)
  {
    SameMessagesKeepThreads(r.threads, h.threads, r.revision, revision) by {
      ValidAnchors(r.threads, r.revision);
    }
    assert forall m :: Version(h, m) ==> Version(r, m);
    ReturnStays(r, h);
  }

  // What a snapshot of existing threads names exists.
  lemma {:induction false} SnapshotNames(ts: seq<Thread>, snapshot: seq<Thread>)
    requires forall t :: t in snapshot ==> t in ts
    ensures forall id :: id in ThreadIds(snapshot) ==> HasThread(ts, id)
    ensures forall id :: id in MessageIds(snapshot) ==> HasMessage(ts, id)
    ensures forall m :: InThreads(snapshot, m) ==> InThreads(ts, m)
  {
    forall j | 0 <= j < |snapshot| ensures exists i :: 0 <= i < |ts| && ts[i] == snapshot[j] {
      assert snapshot[j] in ts;
    }
    forall id | id in MessageIds(snapshot) ensures HasMessage(ts, id) {
      var j :| 0 <= j < |snapshot| && HasId(snapshot[j].messages, id);
      var i :| 0 <= i < |ts| && ts[i] == snapshot[j];
      assert HasId(ts[i].messages, id);
    }
    forall id | id in ThreadIds(snapshot) ensures HasThread(ts, id) {
      var j :| 0 <= j < |snapshot| && ThreadIds(snapshot)[j] == id;
      var i :| 0 <= i < |ts| && ts[i] == snapshot[j];
      assert ts[i].id == id;
    }
  }

  // One more submission, of threads that exist.
  lemma {:induction false} AppendedSubmissions(r: Record, s: Submission, revision: nat)
    requires ValidSubmissions(r.submissions, r.threads, r.generation, r.revision) && Snapshots(r.submissions)
    requires revision == r.revision + 1 && |r.submissions| < MAX_FEEDBACK_SUBMISSIONS
    requires ValidSubmission(s, r.threads, r.generation, revision)
    requires FindSubmission(r.submissions, s.id) == |r.submissions|
    requires s.threadIds == ThreadIds(s.threads) && DistinctThreads(s.threads)
    ensures var all := r.submissions + [s];
            ValidSubmissions(all, r.threads, r.generation, revision) && SubmissionsKept(r.submissions, all) && Snapshots(all)
  {
    var all := r.submissions + [s];
    forall k | 0 <= k < |all| ensures ValidSubmission(all[k], r.threads, r.generation, revision) {
      if k < |r.submissions| { assert ValidSubmission(r.submissions[k], r.threads, r.generation, r.revision); }
    }
    hide ValidSubmission, DistinctThreads, ThreadIds;
  }

  lemma {:induction false} AddSubmission(r: Record, s: Submission, revision: nat)
    requires Core(r) && revision == r.revision + 1 && |r.submissions| < MAX_FEEDBACK_SUBMISSIONS
    requires ValidSubmission(s, r.threads, r.generation, revision)
    requires FindSubmission(r.submissions, s.id) == |r.submissions|
    requires s.threadIds == ThreadIds(s.threads) && DistinctThreads(s.threads)
    requires forall m :: InThreads(s.threads, m) ==> InThreads(r.threads, m)
    ensures HandlerPost(r, r.(submissions := r.submissions + [s]), revision)
  {
    hide ValidThreads, HandlerPost, GoodProgress, ReturnOk, InThreads, ValidSubmissions, ValidSubmission, SubmissionsKept, Snapshots, FindSubmission, DistinctThreads, Current;
    var h := r.(submissions := r.submissions + [s]);
    AppendedSubmissions(r, s, revision);
    forall k, m | 0 <= k < |h.submissions| && InThreads(h.submissions[k].threads, m) ensures Version(r, m) {
      if k < |r.submissions| { assert InThreads(r.submissions[k].threads, m); }
    }
    SubmissionPost(r, h, revision);
  }

  lemma {:induction false} SubmitPost(r: Record, selected: Option<seq<string>>, revision: nat, env: Env)
    requires Core(r) && revision == r.revision + 1 && FreshIds(r, env) && 0 < r.generation
    requires DoSubmit(r, selected, revision, env).Done?
    ensures HandlerPost(r, DoSubmit(r, selected, revision, env).record, revision)
  {
    hide HandlerPost, ValidThread, DistinctMessages, Version, ReturnOk, GoodProgress;
    var s := DoSubmit(r, selected, revision, env).detail.submission;
    EntityIdValid(SubmissionEntity, env.uid1);
    NewsDistinct(r.threads, selected, r.submissions);
    SnapshotNames(r.threads, s.threads);
    AddSubmission(r, s, revision);
  }

  // New submissions and acknowledgements leave the last return in order.
  lemma {:induction false} ReturnStays(r: Record, h: Record)
    requires ReturnOk(r) && h.lastReturn == r.lastReturn && h.generation == r.generation
    requires SubmissionsKept(r.submissions, h.submissions)
    ensures ReturnOk(h)
  {
    if r.lastReturn.Some? {
      var ids := r.lastReturn.value.submissionIds;
      forall k | 0 <= k < |ids| ensures SubmittedNow(h, ids[k]) {
        assert SubmittedNow(r, ids[k]);
        var j :| 0 <= j < |r.submissions| && r.submissions[j].id == ids[k] && r.submissions[j].generation == r.generation;
        assert SameSubmission(r.submissions[j], h.submissions[j]);
      }
    }
  }

  lemma {:induction false} AcknowledgePost(r: Record, submissionId: string, consumer: Option<string>, revision: nat)
    requires Core(r) && revision == r.revision + 1
    requires DoAcknowledge(r, submissionId, consumer).Done?
    ensures HandlerPost(r, DoAcknowledge(r, submissionId, consumer).record, revision)
  {
    var name, i := Consumer(consumer), FindSubmission(r.submissions, submissionId);
    var acks := r.submissions[i].acknowledgedBy;
    if name in acks {
      assert r.submissions[i := r.submissions[i].(acknowledgedBy := acks)] == r.submissions;
      ChangeAcks(r, i, acks, revision);
    } else {
      ChangeAcks(r, i, acks + [name], revision);
    }
  }

  lemma {:induction false} ChangeAcks(r: Record, i: nat, acks: seq<string>, revision: nat)
    requires Core(r) && revision == r.revision + 1 && i < |r.submissions|
    requires r.submissions[i].acknowledgedBy <= acks && |acks| <= MAX_CONSUMERS
    ensures HandlerPost(r, r.(submissions := r.submissions[i := r.submissions[i].(acknowledgedBy := acks)]), revision)
  {
    var h := r.(submissions := r.submissions[i := r.submissions[i].(acknowledgedBy := acks)]);
    forall k | 0 <= k < |h.submissions| ensures ValidSubmission(h.submissions[k], r.threads, r.generation, revision) {
      assert ValidSubmission(r.submissions[k], r.threads, r.generation, r.revision);
    }
    forall k, m | 0 <= k < |h.submissions| && InThreads(h.submissions[k].threads, m) ensures Version(r, m) {
      assert InThreads(r.submissions[k].threads, m);
    }
    SubmissionPost(r, h, revision);
  }

  lemma {:induction false} HandlePost(r: Record, p: Params, revision: nat, env: Env)
    requires Core(r) && 0 < r.generation && revision == r.revision + 1 && FreshIds(r, env)
    requires Handle(r, p, revision, env).Done?
    ensures HandlerPost(r, Handle(r, p, revision, env).record, revision)
  {
    hide Core, HandlerPost, FreshIds, DoRefresh, DoAdd, DoReply, DoEdit, DoRemove, DoSubmit, DoAcknowledge, DoFinish,
      DoDisposition, DoProgress, DoReanchor;
    match p
    case Refresh(patch, source) => RefreshPost(r, patch, source, env.retained, revision);
    case AddComment(anchor, draft) => AddPost(r, anchor, draft, revision, env);
    case Reply(threadId, replyTo, draft) => ReplyPost(r, threadId, replyTo, draft, revision, env);
    case Edit(messageId, body) => EditPost(r, messageId, body, revision);
    case Remove(messageId) => RemovePost(r, messageId, revision);
    case Submit(selected) => SubmitPost(r, selected, revision, env);
    case Acknowledge(submissionId, consumer) => AcknowledgePost(r, submissionId, consumer, revision);
    case Finish(outcome, ids) => FinishPost(r, outcome, ids, revision);
    case SetDisposition(threadId, disposition) => DispositionPost(r, threadId, disposition, revision);
    case SetProgress(update) => ProgressPost(r, update, revision);
    case Reanchor(updates, progress) => ReanchorPost(r, updates, progress, revision);
    case Begin => BeginPost(r, revision);
  }

  // Appending a change and dropping the oldest of too many.
  function Rolled(changes: seq<Change>, change: Change): seq<Change> {
    var log := changes + [change];
    if |log| > MAX_REVIEW_CHANGES then log[1..] else log
  }

  lemma {:induction false} RolledAt(changes: seq<Change>, change: Change, i: nat)
    requires |changes| <= MAX_REVIEW_CHANGES && i < |Rolled(changes, change)|
    ensures var cut := |changes| + 1 - |Rolled(changes, change)|;
            && (cut == 0 || (cut == 1 && |Rolled(changes, change)| == MAX_REVIEW_CHANGES))
            && Rolled(changes, change)[i] == (if i + cut < |changes| then changes[i + cut] else change)
  {
  }

  // The completed log is gap-free again and ends at the new revision.
  lemma {:induction false} CompleteLog(r: Record, h: Record, q: Request, detail: Detail)
    requires GapFree(r) && ValidChanges(r.changes, r.generation, r.revision) && 0 < h.generation
    requires h.revision == r.revision && h.changes == r.changes && r.generation <= h.generation
    ensures var c := Complete(h, q, r.revision + 1, detail);
            && GapFree(c) && ValidChanges(c.changes, c.generation, c.revision)
            && forall i :: 0 <= i < |c.changes| && c.changes[i].revision <= r.revision ==> c.changes[i] in r.changes
  {
    var c := Complete(h, q, r.revision + 1, detail);
    var change := Change(r.revision + 1, MethodKind(q.params), if detail.Commented? then Some(detail.thread.id) else None, h.generation);
    assert c.changes == Rolled(r.changes, change);
    hide Complete, Rolled;
    forall i | 0 <= i < |c.changes|
      ensures c.changes[i].revision == c.revision - |c.changes| + 1 + i && 0 < c.changes[i].generation <= c.generation
      ensures c.changes[i] == change || c.changes[i] in r.changes
    {
      RolledAt(r.changes, change, i);
    }
  }

  // Receipts stay good while submissions are kept.
  lemma {:induction false} ReceiptsStay(r: Record, c: Record, receipt: Receipt)
    requires ReceiptOk(r, receipt) && SubmissionsKept(r.submissions, c.submissions)
    ensures ReceiptOk(c, receipt)
  {
    if receipt.result.detail.SubmittedRef? {
      FindKept(r.submissions, c.submissions, receipt.result.detail.submissionId);
    }
    AckStays(r.submissions, c.submissions, receipt.request.params);
  }

  lemma {:induction false} AckStays(before: seq<Submission>, after: seq<Submission>, p: Params)
    requires SubmissionsKept(before, after) && AckRecorded(before, p)
    ensures AckRecorded(after, p)
  {
    if p.Acknowledge? {
      FindKept(before, after, p.submissionId);
      var i := FindSubmission(before, p.submissionId);
      assert SameSubmission(before[i], after[i]);
    }
  }

  // Versions after a handler: at most one is new, and it has the new revision.
  lemma {:induction false} ContentStays(r: Record, h: Record)
    requires OneContent(r) && HandlerPost(r, h, r.revision + 1)
    ensures OneContent(h)
  {
  }

  lemma {:induction false} CompleteReceipts(r: Record, h: Record, q: Request, detail: Detail)
    requires forall i :: 0 <= i < |r.receipts| ==> ReceiptOk(r, r.receipts[i])
    requires h.receipts == r.receipts && SubmissionsKept(r.submissions, h.submissions)
    requires detail.Submitted? ==> FindSubmission(h.submissions, detail.submission.id) < |h.submissions|
    requires !detail.SubmittedRef? && AckRecorded(h.submissions, q.params)
    ensures var c := Complete(h, q, r.revision + 1, detail);
            forall i :: 0 <= i < |c.receipts| ==> ReceiptOk(c, c.receipts[i])
  {
    var c := Complete(h, q, r.revision + 1, detail);
    forall i | 0 <= i < |c.receipts| ensures ReceiptOk(c, c.receipts[i]) {
      if i < |r.receipts| {
        assert ReceiptOk(r, r.receipts[i]);
        ReceiptsStay(r, c, r.receipts[i]);
      }
    }
  }

  lemma {:induction false} SameVersions(h: Record, c: Record)
    requires c.threads == h.threads && c.submissions == h.submissions
    ensures forall m :: Version(c, m) <==> Version(h, m)
    ensures OneContent(h) ==> OneContent(c)
  {
  }

  lemma {:induction false} CompleteEvolves(r: Record, h: Record, c: Record)
    requires HandlerPost(r, h, r.revision + 1)
    requires c == h.(revision := r.revision + 1, changes := c.changes, receipts := c.receipts) && r.receipts <= c.receipts
    requires forall i :: 0 <= i < |c.changes| && c.changes[i].revision <= r.revision ==> c.changes[i] in r.changes
    ensures Evolves(r, c)
  {
    SameVersions(h, c);
  }

  lemma {:induction false} CompleteCore(r: Record, h: Record, c: Record)
    requires HandlerPost(r, h, r.revision + 1)
    requires c == h.(revision := r.revision + 1, changes := c.changes, receipts := c.receipts)
    ensures Core(c)
  {
    SameVersions(h, c);
    ReturnStays(h, c) by { assert SubmissionsKept(h.submissions, c.submissions); }
  }

  lemma {:induction false} CompleteValid(r: Record, h: Record, q: Request, detail: Detail)
    requires Inv(r) && HandlerPost(r, h, r.revision + 1)
    requires Bounded(q.mutationId, 256) && FindReceipt(r.receipts, q.mutationId) == |r.receipts| < MAX_MUTATION_RECEIPTS
    requires var c := Complete(h, q, r.revision + 1, detail); ValidChanges(c.changes, c.generation, c.revision)
    ensures ValidRecord(Complete(h, q, r.revision + 1, detail))
  {
    hide ValidThreads, ValidSubmissions, ValidProgress, VerdictFits, ValidChanges, Current, Snapshots, ReturnOk, GapFree, OneContent,
      Version, ReceiptOk, ThreadsKept, SubmissionsKept, Core, Bounded, Compact;
  }

  // `call` completing what a handler left.
  lemma {:induction false} CompletePost(r: Record, h: Record, q: Request, detail: Detail)
    requires Inv(r) && HandlerPost(r, h, r.revision + 1)
    requires Bounded(q.mutationId, 256) && FindReceipt(r.receipts, q.mutationId) == |r.receipts| < MAX_MUTATION_RECEIPTS
    requires detail.Submitted? ==> FindSubmission(h.submissions, detail.submission.id) < |h.submissions|
    requires !detail.SubmittedRef? && AckRecorded(h.submissions, q.params)
    ensures var c := Complete(h, q, r.revision + 1, detail);
            && Inv(c) && Evolves(r, c) && ValidRecord(c) && c.revision == r.revision + 1
            && c.id == r.id && c.binding == r.binding && c.source == r.source
            && c.generation == r.generation + (if c.patch != r.patch then 1 else 0)
  {
    hide ValidThreads, ValidSubmissions, ValidReceipts, GoodProgress, ValidProgress, ValidChanges, Current, Snapshots, ReturnOk, GapFree, OneContent,
      Version, Evolves, ReceiptOk, ThreadsKept, SubmissionsKept, Core, Bounded, FindReceipt, Compact, AckRecorded;
    var c := Complete(h, q, r.revision + 1, detail);
    CompleteLog(r, h, q, detail);
    CompleteReceipts(r, h, q, detail);
    CompleteCore(r, h, c);
    CompleteEvolves(r, h, c);
    ContentStays(r, h);
    SameVersions(h, c);
    CompleteValid(r, h, q, detail);
  }

  lemma {:induction false} FindKept(before: seq<Submission>, after: seq<Submission>, id: string)
    requires SubmissionsKept(before, after) && FindSubmission(before, id) < |before|
    ensures FindSubmission(after, id) == FindSubmission(before, id)
  {
    var i := FindSubmission(before, id);
    assert SameSubmission(before[i], after[i]) && after[i].id == id;
    forall k | 0 <= k < i ensures after[k].id != id {
      assert SameSubmission(before[k], after[k]);
    }
  }
}
