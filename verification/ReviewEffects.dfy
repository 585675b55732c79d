// What each mutation does, told by ids: when it is accepted, which thread or message it
// changes and how, and that everything else stays.
module ReviewEffects {
  import opened Wrappers
  import opened Utf8
  import opened ReviewTypes
  import opened ReviewHandlers
  import opened ReviewInvariant

  predicate MessageAt(threads: seq<Thread>, i: nat, k: nat, id: string) {
    i < |threads| && k < |threads[i].messages| && threads[i].messages[k].id == id
  }

  lemma {:induction false} OnePlace(threads: seq<Thread>, i: nat, k: nat, j: nat, a: nat, id: string)
    requires DistinctMessages(threads) && MessageAt(threads, i, k, id) && MessageAt(threads, j, a, id)
    ensures i == j && k == a
  {
    assert i != j ==> Apart(threads[i].messages, threads[j].messages);
  }

  // Where the search for a message ends when ids are distinct.
  lemma {:induction false} FoundMessage(threads: seq<Thread>, i: nat, k: nat, id: string)
    requires DistinctMessages(threads) && MessageAt(threads, i, k, id)
    ensures FindThreadOf(threads, id) == i && FindMessage(threads[i].messages, id) == k
  {
    hide FindThreadOf, FindMessage, DistinctMessages;
    var a := FindThreadOf(threads, id);
    assert FindMessage(threads[i].messages, id) <= k;
    var c := FindMessage(threads[a].messages, id);
    OnePlace(threads, a, c, i, k, id);
  }

  lemma {:induction false} FoundThread(threads: seq<Thread>, i: nat, id: string)
    requires DistinctThreads(threads) && i < |threads| && threads[i].id == id
    ensures FindThread(threads, id) == i
  {
    hide FindThread;
  }

  // ---- comment.edit and comment.remove ----

  // The message with this id gets a new body, mark and revision; all else is as before.
  predicate OnlyMessage(before: seq<Thread>, after: seq<Thread>, id: string, body: string, deleted: bool, revision: nat) {
    |after| == |before| && forall i :: 0 <= i < |before| ==>
      && after[i] == before[i].(messages := after[i].messages)
      && |after[i].messages| == |before[i].messages|
      && forall k :: 0 <= k < |before[i].messages| ==>
           after[i].messages[k] ==
             if before[i].messages[k].id == id then before[i].messages[k].(body := body, deleted := deleted, revision := revision)
             else before[i].messages[k]
  }

  // The last live human message of its thread.
  predicate LatestHuman(messages: seq<Message>, k: nat)
    requires k < |messages|
  {
    LiveHuman(messages[k]) && forall j :: k < j < |messages| ==> !LiveHuman(messages[j])
  }

  ghost predicate Editable(threads: seq<Thread>, id: string) {
    exists i: nat, k: nat :: MessageAt(threads, i, k, id) && LatestHuman(threads[i].messages, k)
  }

  ghost predicate Removable(threads: seq<Thread>, id: string) {
    exists i: nat, k: nat :: MessageAt(threads, i, k, id) && threads[i].messages[k].origin == Human
  }

  lemma {:induction false} ReplacedMessage(threads: seq<Thread>, i: nat, k: nat, body: string, deleted: bool, revision: nat)
    requires DistinctMessages(threads) && i < |threads| && k < |threads[i].messages|
    ensures var m := threads[i].messages[k].(body := body, deleted := deleted, revision := revision);
            OnlyMessage(threads, threads[i := threads[i].(messages := threads[i].messages[k := m])], threads[i].messages[k].id, body, deleted, revision)
  {
    var id := threads[i].messages[k].id;
    forall j, a | 0 <= j < |threads| && 0 <= a < |threads[j].messages| && threads[j].messages[a].id == id ensures j == i && a == k {
      OnePlace(threads, j, a, i, k, id);
    }
  }

  // An edit is accepted exactly for the latest live human message of a thread, with a
  // body within bounds; it changes that message's text and revision.
  lemma {:induction false} EditExact(r: Record, messageId: string, body: string, revision: nat)
    requires DistinctMessages(r.threads)
    ensures var out := DoEdit(r, messageId, body, revision);
            && (out.Done? <==> Editable(r.threads, messageId) && Bounded(body, MAX_BODY_BYTES))
            && (out.Done? ==>
                  && out.record == r.(threads := out.record.threads)
                  && OnlyMessage(r.threads, out.record.threads, messageId, body, false, revision))
  {
    hide DistinctMessages, Bounded, FindMessage, FindThreadOf, OnlyMessage;
    var i := FindThreadOf(r.threads, messageId);
    if i < |r.threads| {
      var k := FindMessage(r.threads[i].messages, messageId);
      assert MessageAt(r.threads, i, k, messageId);
      ReplacedMessage(r.threads, i, k, body, false, revision);
    }
    if Editable(r.threads, messageId) {
      var a: nat, b: nat :| MessageAt(r.threads, a, b, messageId) && LatestHuman(r.threads[a].messages, b);
      FoundMessage(r.threads, a, b, messageId);
    }
  }

  // A removal is accepted exactly for a human message; the text goes, the mark stays.
  lemma {:induction false} RemoveExact(r: Record, messageId: string, revision: nat)
    requires DistinctMessages(r.threads)
    ensures var out := DoRemove(r, messageId, revision);
            && (out.Done? <==> Removable(r.threads, messageId))
            && (out.Done? ==>
                  && out.record == r.(threads := out.record.threads)
                  && OnlyMessage(r.threads, out.record.threads, messageId, "", true, revision))
  {
    hide DistinctMessages, FindMessage, FindThreadOf, OnlyMessage;
    var i := FindThreadOf(r.threads, messageId);
    if i < |r.threads| {
      var k := FindMessage(r.threads[i].messages, messageId);
      assert MessageAt(r.threads, i, k, messageId);
      ReplacedMessage(r.threads, i, k, "", true, revision);
    }
    if Removable(r.threads, messageId) {
      var a: nat, b: nat :| MessageAt(r.threads, a, b, messageId) && r.threads[a].messages[b].origin == Human;
      FoundMessage(r.threads, a, b, messageId);
    }
  }

  // ---- comment.add and comment.reply ----

  // Exactly the thread with this id changed, from `t` to what `after` shows.
  predicate OtherThreads(before: seq<Thread>, after: seq<Thread>, id: string) {
    |after| == |before| && forall i :: 0 <= i < |before| && before[i].id != id ==> after[i] == before[i]
  }

  predicate GoodDraft(d: Draft) {
    Bounded(d.body, MAX_BODY_BYTES) && (d.origin.Some? ==> !d.origin.value.OtherOrigin?) && BoundedOption(d.author, 256)
  }

  predicate Written(m: Message, d: Draft, replyTo: Option<string>, revision: nat) {
    && m.body == d.body && m.author == d.author && m.replyTo == replyTo && m.revision == revision && !m.deleted
    && m.origin == (if d.origin.Some? then d.origin.value else Agent)
  }

  // The thread holds the message replied to.
  predicate RepliesTo(threads: seq<Thread>, threadId: string, replyTo: string) {
    exists i: nat :: i < |threads| && threads[i].id == threadId && HasId(threads[i].messages, replyTo)
  }

  // A reply is accepted exactly while there is room, for a message of the named thread
  // and a good draft; it becomes that thread's last message.
  lemma {:induction false} ReplyExact(r: Record, threadId: string, replyTo: string, d: Draft, revision: nat, env: Env)
    requires DistinctThreads(r.threads)
    ensures var out := DoReply(r, threadId, replyTo, d, revision, env);
            && (out.Done? <==> TotalMessages(r.threads) < MAX_REVIEW_MESSAGES && RepliesTo(r.threads, threadId, replyTo) && GoodDraft(d))
            && (out.Done? ==>
                  && out.record == r.(threads := out.record.threads)
                  && OtherThreads(r.threads, out.record.threads, threadId)
                  && forall i :: 0 <= i < |r.threads| && r.threads[i].id == threadId ==>
                       && out.record.threads[i] == r.threads[i].(messages := out.record.threads[i].messages)
                       && |out.record.threads[i].messages| == |r.threads[i].messages| + 1
                       && r.threads[i].messages <= out.record.threads[i].messages
                       && Written(out.record.threads[i].messages[|r.threads[i].messages|], d, Some(replyTo), revision))
  {
    hide Bounded, BoundedOption, TotalMessages, FindThread, FindMessage;
    if RepliesTo(r.threads, threadId, replyTo) {
      var i: nat :| i < |r.threads| && r.threads[i].id == threadId && HasId(r.threads[i].messages, replyTo);
      FoundThread(r.threads, i, threadId);
    }
  }

  // A comment is accepted exactly while there is room for a thread and a message, with a
  // valid anchor and a good draft; it opens a current thread that holds it alone.
  lemma {:induction false} AddExact(r: Record, anchor: Anchor, d: Draft, revision: nat, env: Env)
    ensures var out := DoAdd(r, anchor, d, revision, env);
            && (out.Done? <==> |r.threads| < MAX_REVIEW_THREADS && TotalMessages(r.threads) < MAX_REVIEW_MESSAGES
                               && ValidAnchor(anchor) && GoodDraft(d))
            && (out.Done? ==>
                  && out.record == r.(threads := out.record.threads)
                  && |out.record.threads| == |r.threads| + 1 && r.threads <= out.record.threads
                  && var t := out.record.threads[|r.threads|];
                     && t.anchor == anchor && t.generation == r.generation && !t.stale && t.disposition == Disposition.Open
                     && |t.messages| == 1 && Written(t.messages[0], d, None, revision))
  {
    hide Bounded, BoundedOption, TotalMessages, AnchorError;
    AnchorErrorIs(anchor);
  }

  lemma {:induction false} AnchorErrorIs(anchor: Anchor)
    ensures AnchorError(anchor).None? <==> ValidAnchor(anchor)
  {
  }

  // ---- review.refresh ----

  // Same conversation, possibly another generation or staleness.
  predicate SameThread(t: Thread, u: Thread) {
    u == t.(generation := u.generation, stale := u.stale)
  }

  // A refresh with the same patch changes nothing.  With another one it starts the next
  // generation: a thread stays current exactly when it was and its file is retained,
  // a stale one stays stale, no conversation changes, progress shrinks to the retained
  // files, and the verdict and the last return go.
  lemma {:induction false} RefreshExact(r: Record, patch: Str, source: Option<Json>, retained: set<string>)
    ensures var out := DoRefresh(r, patch, source, retained);
            && (out.Done? <==> |patch| <= MAX_SNAPSHOT_BYTES && (source.Some? ==> source.value == r.source)
                               && (patch != r.patch ==> r.generation < U64_MAX))
            && (out.Done? && patch == r.patch ==> out.record == r)
            && (out.Done? && patch != r.patch ==>
                  var s := out.record;
                  && s == r.(patch := patch, generation := r.generation + 1, threads := s.threads, progress := s.progress, lastReturn := None)
                  && |s.threads| == |r.threads|
                  && (forall i :: 0 <= i < |r.threads| ==>
                        && SameThread(r.threads[i], s.threads[i])
                        && (s.threads[i].stale <==> r.threads[i].stale || r.threads[i].anchor.file !in retained)
                        && s.threads[i].generation == if s.threads[i].stale then r.threads[i].generation else r.generation + 1)
                  && s.progress.verdict.None?
                  && (forall f :: f in s.progress.files <==> f in r.progress.files && f in retained)
                  && forall h :: h in s.progress.hunks <==> h in r.progress.hunks && h.0 in retained)
  {
    hide RefreshThreads, KeepFiles, KeepHunks;
  }

  // ---- review.disposition and feedback.ack ----

  lemma {:induction false} DispositionExact(r: Record, threadId: string, disposition: Disposition)
    requires DistinctThreads(r.threads)
    ensures var out := DoDisposition(r, threadId, disposition);
            && (out.Done? <==> !disposition.OtherDisposition? && HasThread(r.threads, threadId))
            && (out.Done? ==>
                  && out.record == r.(threads := out.record.threads)
                  && OtherThreads(r.threads, out.record.threads, threadId)
                  && forall i :: 0 <= i < |r.threads| && r.threads[i].id == threadId ==>
                       out.record.threads[i] == r.threads[i].(disposition := disposition))
  {
    hide FindThread;
    if HasThread(r.threads, threadId) {
      var i :| 0 <= i < |r.threads| && r.threads[i].id == threadId;
      FoundThread(r.threads, i, threadId);
    }
  }

  // Acknowledging is idempotent per consumer and touches one submission's list only.
  lemma {:induction false} AcknowledgeExact(r: Record, id: string, consumer: Option<string>)
    requires forall i, j :: 0 <= i < j < |r.submissions| ==> r.submissions[i].id != r.submissions[j].id
    ensures var out, name := DoAcknowledge(r, id, consumer), Consumer(consumer);
            && (out.Done? <==> Bounded(name, 256) && exists k :: 0 <= k < |r.submissions| && Admits(r.submissions[k], id, name))
            && (out.Done? ==>
                  && out.record == r.(submissions := out.record.submissions)
                  && |out.record.submissions| == |r.submissions|
                  && (forall k :: 0 <= k < |r.submissions| ==>
                        && SameSubmission(r.submissions[k], out.record.submissions[k])
                        && (r.submissions[k].id != id ==> out.record.submissions[k] == r.submissions[k])
                        && (r.submissions[k].id == id ==> name in out.record.submissions[k].acknowledgedBy))
                  && DoAcknowledge(out.record, id, consumer) == Done(out.record, out.detail))
  {
    hide Bounded, FindSubmission;
    var i := FindSubmission(r.submissions, id);
    var out := DoAcknowledge(r, id, consumer);
    if i < |r.submissions| { assert Bounded(Consumer(consumer), 256) ==> (Admits(r.submissions[i], id, Consumer(consumer)) <==> out.Done?); }
    if out.Done? {
      forall k | 0 <= k < |r.submissions| ensures out.record.submissions[k].id == r.submissions[k].id {}
      var j := FindSubmission(out.record.submissions, id);
      assert j == i;
    }
  }

  predicate Admits(s: Submission, id: string, name: string) {
    s.id == id && (name in s.acknowledgedBy || |s.acknowledgedBy| < MAX_CONSUMERS)
  }

  // ---- review.finish ----

  // A verdict of the closed vocabulary; only `submitted` carries submissions, and it
  // carries some, all of them made from the current patch.
  predicate Finishable(r: Record, outcome: Verdict, ids: seq<string>) {
    match outcome
    case Back => ids == []
    case Cancelled => ids == []
    case SubmittedVerdict => ids != [] && forall id :: id in ids ==> SubmittedNow(r, id)
    case OtherVerdict(_) => false
  }

  lemma {:induction false} FinishExact(r: Record, outcome: Verdict, submissionIds: Option<seq<string>>, revision: nat)
    ensures var out, ids := DoFinish(r, outcome, submissionIds, revision), if submissionIds.Some? then submissionIds.value else [];
            && (out.Done? <==> Finishable(r, outcome, ids))
            && (out.Done? ==> out.record == r.(lastReturn := Some(Return(outcome, ids, revision))))
  {
    hide SubmittedNow;
  }

  // What was just submitted can be returned ...
  lemma {:induction false} SubmitThenFinish(r: Record, selected: Option<seq<string>>, revision: nat, env: Env, later: nat)
    ensures var out := DoSubmit(r, selected, revision, env);
            out.Done? ==> DoFinish(out.record, SubmittedVerdict, Some([out.record.submissions[|r.submissions|].id]), later).Done?
  {
    hide News, MessageIds, AllThreads;
    var out := DoSubmit(r, selected, revision, env);
    if out.Done? {
      var s := out.record.submissions[|r.submissions|];
      assert SubmittedNow(out.record, s.id);
    }
  }

  // ... and no more once a refresh has replaced the patch.
  lemma {:induction false} RefreshVoidsSubmissions(r: Record, patch: Str, source: Option<Json>, retained: set<string>, ids: seq<string>, later: nat)
    requires Core(r) && DoRefresh(r, patch, source, retained).Done? && patch != r.patch
    ensures DoFinish(DoRefresh(r, patch, source, retained).record, SubmittedVerdict, Some(ids), later).Refused?
  {
    hide RefreshThreads, KeepFiles, KeepHunks, ValidThreads, Snapshots, ReturnOk, Current, GoodProgress, Version;
    var out := DoRefresh(r, patch, source, retained).record;
    if ids != [] {
      forall k | 0 <= k < |out.submissions| ensures out.submissions[k].generation != out.generation {
        assert ValidSubmission(r.submissions[k], r.threads, r.generation, r.revision);
      }
      assert !SubmittedNow(out, ids[0]);
    }
  }

  // ---- review.progress ----

  // The limits of a progress update, for the parts it sets.
  predicate GoodUpdateOf(p: Progress, u: ProgressUpdate) {
    match u
    case MarkFile(file, reviewed) => ValidFile(file) && (reviewed && file !in p.files ==> |p.files| < MAX_REVIEWED_FILES)
    case Replace(files, hunks, verdict) =>
      && (files.Some? ==> |files.value| <= MAX_REVIEWED_FILES && forall f :: f in files.value ==> ValidFile(f))
      && (hunks.Some? ==> |hunks.value| <= MAX_REVIEWED_HUNKS && forall h :: h in hunks.value ==> ValidFile(h.0) && 0 < h.1)
      && (verdict.Some? && verdict.value.JsonValue? ==> Utf8Size(verdict.value.encoding) <= 8192)
  }

  // What it sets, as sets of files and hunks.
  ghost predicate Updated(p: Progress, q: Progress, u: ProgressUpdate) {
    match u
    case MarkFile(file, reviewed) =>
      q.hunks == p.hunks && q.verdict == p.verdict && forall f :: f in q.files <==> if f == file then reviewed else f in p.files
    case Replace(files, hunks, verdict) =>
      && q.files == (if files.Some? then files.value else p.files)
      && q.hunks == (if hunks.Some? then hunks.value else p.hunks)
      && (verdict.None? ==> q.verdict == p.verdict)
      && (verdict.Some? ==> q.verdict == if verdict.value.JsonNull? then None else verdict)
  }

  lemma {:induction false} WithoutSize(files: seq<string>, file: string)
    ensures file in files ==> |Without(files, file)| < |files|
    ensures file !in files ==> Without(files, file) == files
    decreases |files|
  {
    if files != [] {
      var n := |files| - 1;
      WithoutSize(files[..n], file);
      assert files == files[..n] + [files[n]];
    }
  }

  lemma {:induction false} UpdateFits(p: Progress, u: ProgressUpdate)
    requires GoodProgress(p)
    ensures var q := UpdatedProgress(p, u);
            && ((u.MarkFile? ==> ValidFile(u.file)) && GoodProgress(q) <==> GoodUpdateOf(p, u))
            && Updated(p, q, u)
  {
    hide ValidFile, Utf8Size;
    if u.MarkFile? { WithoutSize(p.files, u.file); }
  }

  // On a record whose progress is within bounds, as every reachable one is, an update is
  // accepted exactly when the parts it sets are, and sets those.
  lemma {:induction false} ProgressExact(r: Record, u: ProgressUpdate)
    requires GoodProgress(r.progress)
    ensures var out := DoProgress(r, u);
            && (out.Done? <==> GoodUpdateOf(r.progress, u))
            && (out.Done? ==> out.record == r.(progress := out.record.progress) && Updated(r.progress, out.record.progress, u))
  {
    hide GoodProgress, ProgressError, UpdatedProgress, FileError, GoodUpdateOf, Updated;
    UpdateFits(r.progress, u);
    ProgressErrorIs(UpdatedProgress(r.progress, u));
  }

  // The same update again changes nothing.
  lemma {:induction false} ProgressTwice(r: Record, u: ProgressUpdate)
    requires DoProgress(r, u).Done?
    ensures DoProgress(DoProgress(r, u).record, u) == DoProgress(r, u)
  {
    hide ProgressError, FileError;
    if u.MarkFile? { MarkTwice(r.progress.files, u.file, u.reviewed); }
  }

  lemma {:induction false} MarkTwice(files: seq<string>, file: string, reviewed: bool)
    ensures var out := Without(files, file) + if reviewed then [file] else [];
            Without(out, file) + (if reviewed then [file] else []) == out
  {
    var rest := Without(files, file);
    WithoutSize(rest, file);
    if reviewed {
      assert (rest + [file])[..|rest|] == rest;
      assert rest + [] == rest;
    } else {
      assert rest + [] == rest;
    }
  }

  // ---- review.reanchor ----

  predicate Names(updates: seq<AnchorUpdate>, id: string) {
    exists k :: 0 <= k < |updates| && updates[k].threadId == id
  }

  predicate GoodUpdate(threads: seq<Thread>, u: AnchorUpdate, generation: nat) {
    AnchorError(u.anchor).None? && (u.generation.Some? ==> u.generation.value == generation) && HasThread(threads, u.threadId)
  }

  predicate GoodUpdates(threads: seq<Thread>, updates: seq<AnchorUpdate>, generation: nat, seen: set<string>) {
    && (forall k :: 0 <= k < |updates| ==> GoodUpdate(threads, updates[k], generation) && updates[k].threadId !in seen)
    && forall a, b :: 0 <= a < b < |updates| ==> updates[a].threadId != updates[b].threadId
  }

  // The thread as the update says, current again.
  function Moved(t: Thread, u: AnchorUpdate, generation: nat): Thread {
    t.(anchor := u.anchor, stale := u.stale, generation := generation)
  }

  // Each named thread is moved as its update says; the others stay.
  predicate AllMoved(before: seq<Thread>, after: seq<Thread>, updates: seq<AnchorUpdate>, generation: nat) {
    && |after| == |before|
    && (forall i :: 0 <= i < |before| && !Names(updates, before[i].id) ==> after[i] == before[i])
    && forall i, k :: 0 <= i < |before| && 0 <= k < |updates| && updates[k].threadId == before[i].id ==>
         after[i] == Moved(before[i], updates[k], generation)
  }

  predicate SameThreadIds(before: seq<Thread>, after: seq<Thread>) {
    |after| == |before| && forall i :: 0 <= i < |before| ==> after[i].id == before[i].id
  }

  lemma {:induction false} GoodUpdatesLater(threads: seq<Thread>, next: seq<Thread>, updates: seq<AnchorUpdate>, generation: nat, seen: set<string>)
    requires updates != [] && SameThreadIds(threads, next)
    ensures GoodUpdates(threads, updates, generation, seen) <==>
              && GoodUpdate(threads, updates[0], generation) && updates[0].threadId !in seen
              && GoodUpdates(next, updates[1..], generation, seen + {updates[0].threadId})
  {
    hide AnchorError;
    var rest := updates[1..];
    assert forall id :: HasThread(threads, id) <==> HasThread(next, id);
    if GoodUpdates(next, rest, generation, seen + {updates[0].threadId}) && GoodUpdate(threads, updates[0], generation) && updates[0].threadId !in seen {
      forall k | 0 <= k < |updates| ensures GoodUpdate(threads, updates[k], generation) && updates[k].threadId !in seen {
        if k > 0 { assert updates[k] == rest[k - 1]; }
      }
      forall a, b | 0 <= a < b < |updates| ensures updates[a].threadId != updates[b].threadId {
        assert updates[b] == rest[b - 1];
        if a > 0 { assert updates[a] == rest[a - 1]; }
      }
    }
  }

  lemma {:induction false} ReanchorThreadsExact(threads: seq<Thread>, updates: seq<AnchorUpdate>, generation: nat, seen: set<string>)
    requires DistinctThreads(threads)
    ensures var r := ReanchorThreads(threads, updates, generation, seen);
            && (r.Ok? <==> GoodUpdates(threads, updates, generation, seen))
            && (r.Ok? ==> AllMoved(threads, r.value, updates, generation))
    decreases |updates|
  {
    hide AnchorError, FindThread, GoodUpdates;
    if updates == [] {
      assert GoodUpdates(threads, updates, generation, seen) by { NoUpdates(threads, generation, seen); }
    } else {
      var u := updates[0];
      var i := FindThread(threads, u.threadId);
      if i < |threads| {
        var next := threads[i := Moved(threads[i], u, generation)];
        GoodUpdatesLater(threads, next, updates, generation, seen);
        ReanchorThreadsExact(next, updates[1..], generation, seen + {u.threadId});
        if ReanchorThreads(threads, updates, generation, seen).Ok? {
          MovedFirst(threads, next, ReanchorThreads(threads, updates, generation, seen).value, updates, generation, i, seen);
        }
      } else {
        assert !HasThread(threads, u.threadId);
        GoodUpdatesLater(threads, threads, updates, generation, seen);
      }
    }
  }

  lemma {:induction false} NoUpdates(threads: seq<Thread>, generation: nat, seen: set<string>)
    ensures GoodUpdates(threads, [], generation, seen)
  {
  }

  lemma {:induction false} MovedFirst(threads: seq<Thread>, next: seq<Thread>, after: seq<Thread>, updates: seq<AnchorUpdate>, generation: nat, i: nat, seen: set<string>)
    requires updates != [] && i < |threads| && DistinctThreads(threads) && threads[i].id == updates[0].threadId
    requires next == threads[i := Moved(threads[i], updates[0], generation)]
    requires GoodUpdates(threads, updates, generation, seen) && AllMoved(next, after, updates[1..], generation)
    ensures AllMoved(threads, after, updates, generation)
  {
    hide GoodUpdate;
    var rest := updates[1..];
    forall j | 0 <= j < |threads| ensures Names(updates, threads[j].id) <==> j == i || Names(rest, threads[j].id) {
      if Names(rest, threads[j].id) {
        var k :| 0 <= k < |rest| && rest[k].threadId == threads[j].id;
        assert updates[k + 1].threadId == threads[j].id;
      }
      if Names(updates, threads[j].id) {
        var k :| 0 <= k < |updates| && updates[k].threadId == threads[j].id;
        if k > 0 { assert rest[k - 1].threadId == threads[j].id; }
      }
      if j == i { assert updates[0].threadId == threads[j].id; }
    }
    forall k | 0 <= k < |rest| ensures rest[k].threadId != next[i].id {
      assert rest[k] == updates[k + 1];
    }
    assert !Names(rest, next[i].id);
    forall j, k | 0 <= j < |threads| && 0 <= k < |updates| && updates[k].threadId == threads[j].id
      ensures after[j] == Moved(threads[j], updates[k], generation)
    {
      if k > 0 { assert rest[k - 1] == updates[k]; }
    }
  }

  // A reanchor is accepted exactly when every update has a valid anchor, this generation
  // and an existing thread of its own, and the progress it carries, if any, is in bounds;
  // then each named thread, and no other, takes its update's anchor and staleness and
  // becomes current, and the progress is updated.
  lemma {:induction false} ReanchorExact(r: Record, updates: seq<AnchorUpdate>, progress: Option<ProgressUpdate>)
    requires DistinctThreads(r.threads) && GoodProgress(r.progress)
    ensures var out := DoReanchor(r, updates, progress);
            && (out.Done? <==>
                  && |updates| <= MAX_REVIEW_THREADS && GoodUpdates(r.threads, updates, r.generation, {})
                  && (progress.Some? ==> GoodUpdateOf(r.progress, progress.value)))
            && (out.Done? ==>
                  && out.record == r.(threads := out.record.threads, progress := out.record.progress)
                  && AllMoved(r.threads, out.record.threads, updates, r.generation)
                  && (if progress.None? then out.record.progress == r.progress
                      else Updated(r.progress, out.record.progress, progress.value)))
  {
    hide ReanchorThreads, GoodUpdates, AllMoved, DoProgress, GoodProgress, GoodUpdateOf, Updated;
    ReanchorThreadsExact(r.threads, updates, r.generation, {});
    var moved := ReanchorThreads(r.threads, updates, r.generation, {});
    if moved.Ok? && progress.Some? { ProgressExact(r.(threads := moved.value), progress.value); }
  }

  // After a refresh with another patch, a reanchor that names the stale threads makes
  // every thread current again, each with its conversation.
  lemma {:induction false} RefreshThenReanchor(r: Record, patch: Str, source: Option<Json>, retained: set<string>, updates: seq<AnchorUpdate>)
    requires Core(r) && DoRefresh(r, patch, source, retained).Done? && patch != r.patch
    requires DoReanchor(DoRefresh(r, patch, source, retained).record, updates, None).Done?
    requires forall k :: 0 <= k < |updates| ==> !updates[k].stale
    requires var h := DoRefresh(r, patch, source, retained).record;
             forall i :: 0 <= i < |h.threads| && h.threads[i].stale ==> Names(updates, h.threads[i].id)
    ensures var s := DoReanchor(DoRefresh(r, patch, source, retained).record, updates, None).record;
            && s.generation == r.generation + 1 && |s.threads| == |r.threads|
            && forall i :: 0 <= i < |s.threads| ==>
                 && !s.threads[i].stale && s.threads[i].generation == s.generation
                 && s.threads[i].id == r.threads[i].id && s.threads[i].messages == r.threads[i].messages
  {
    hide DoRefresh, DoReanchor, GoodUpdates, GoodProgress, Names, ValidThread, DistinctMessages, TotalMessages, Current, Snapshots, ReturnOk;
    hide ValidSubmissions, Version;
    var h := DoRefresh(r, patch, source, retained).record;
    RefreshExact(r, patch, source, retained);
    assert DistinctThreads(h.threads);
    assert GoodProgress(h.progress) by { RefreshPost(r, patch, source, retained, r.revision + 1); }
    ReanchorExact(h, updates, None);
    var s := DoReanchor(h, updates, None).record;
    forall i | 0 <= i < |s.threads| ensures !s.threads[i].stale && s.threads[i].generation == s.generation
        && s.threads[i].id == h.threads[i].id && s.threads[i].messages == h.threads[i].messages {
      NamedIsMoved(h.threads, s.threads, updates, h.generation, i);
    }
  }

  lemma {:induction false} NamedIsMoved(before: seq<Thread>, after: seq<Thread>, updates: seq<AnchorUpdate>, generation: nat, i: nat)
    requires AllMoved(before, after, updates, generation) && i < |before|
    ensures if Names(updates, before[i].id) then
              exists k :: 0 <= k < |updates| && updates[k].threadId == before[i].id && after[i] == Moved(before[i], updates[k], generation)
            else after[i] == before[i]
  {
  }

  // ---- feedback.submit ----

  // Which threads a submission takes.
  predicate Taken(r: Record, selected: Option<seq<string>>, t: Thread) {
    t in r.threads && Selected(selected, t.id) && HasNews(r.submissions, t)
  }

  // A submission is a snapshot of exactly the selected threads with unsent human text,
  // whole and in order, under the current generation, not yet acknowledged.
  lemma {:induction false} SubmitExact(r: Record, selected: Option<seq<string>>, revision: nat, env: Env)
    ensures var out := DoSubmit(r, selected, revision, env);
            && (out.Done? <==>
                  && |r.submissions| < MAX_FEEDBACK_SUBMISSIONS
                  && (selected.Some? ==> forall k :: 0 <= k < |selected.value| ==> HasThread(r.threads, selected.value[k]))
                  && exists t :: Taken(r, selected, t))
            && (out.Done? ==>
                  var s := out.record.submissions[|r.submissions|];
                  && out.record == r.(submissions := r.submissions + [s])
                  && s.acknowledgedBy == [] && s.generation == r.generation && s.revision == revision
                  && (forall t :: t in s.threads <==> Taken(r, selected, t))
                  && InOrder(r.threads, s.threads))
  {
    hide News, HasNews, FindThread, MessageIds;
    var threads := News(r.threads, selected, r.submissions);
    NewsInOrder(r.threads, selected, r.submissions);
    if threads != [] { assert Taken(r, selected, threads[0]); }
    if selected.Some? {
      forall k | 0 <= k < |selected.value| ensures FindThread(r.threads, selected.value[k]) < |r.threads| <==> HasThread(r.threads, selected.value[k]) {}
    }
  }

  // `part` is a subsequence of `whole`.
  predicate InOrder(whole: seq<Thread>, part: seq<Thread>)
    decreases |whole|
  {
    if whole == [] then part == []
    else
      var n := |whole| - 1;
      || InOrder(whole[..n], part)
      || (part != [] && part[|part| - 1] == whole[n] && InOrder(whole[..n], part[..|part| - 1]))
  }

  lemma {:induction false} NewsInOrder(threads: seq<Thread>, selected: Option<seq<string>>, submissions: seq<Submission>)
    ensures InOrder(threads, News(threads, selected, submissions))
    decreases |threads|
  {
    hide HasNews;
    if threads != [] {
      var n := |threads| - 1;
      NewsInOrder(threads[..n], selected, submissions);
      var rest := News(threads[..n], selected, submissions);
      assert (rest + [threads[n]])[..|rest|] == rest && rest + [] == rest;
    }
  }
}
