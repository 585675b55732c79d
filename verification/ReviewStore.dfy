// The store as the source runs it: a record is loaded, its fields are updated in
// place by one handler, and it is written back, or dropped when anything failed.
module ReviewStore {
  import opened Wrappers
  import opened Utf8
  import opened ReviewTypes
  import opened ReviewHandlers
  import opened ReviewInvariant
  import opened ReviewRuns
  import opened ReviewValidation

  // The two `retain` loops of a refresh; the verdict goes.
  method RetainProgress(p: Progress, retained: set<string>) returns (r: Progress)
    ensures r == Progress(KeepFiles(p.files, retained), KeepHunks(p.hunks, retained), None)
  {
    var files: seq<string>, hunks: seq<(string, nat)> := [], [];
    for k := 0 to |p.files|
      invariant files == KeepFiles(p.files[..k], retained)
    {
      assert p.files[..k + 1][..k] == p.files[..k];
      if p.files[k] in retained { files := files + [p.files[k]]; }
    }
    for k := 0 to |p.hunks|
      invariant hunks == KeepHunks(p.hunks[..k], retained)
    {
      assert p.hunks[..k + 1][..k] == p.hunks[..k];
      if p.hunks[k].0 in retained { hunks := hunks + [p.hunks[k]]; }
    }
    assert p.files[..|p.files|] == p.files && p.hunks[..|p.hunks|] == p.hunks;
    r := Progress(files, hunks, None);
  }

  class ReviewRecord {
    const id: string
    const binding: Binding
    const source: Json
    var generation: nat
    var revision: nat
    var patch: Str
    var threads: seq<Thread>
    var submissions: seq<Submission>
    var lastReturn: Option<Return>
    var changes: seq<Change>
    var progress: Progress
    var receipts: seq<Receipt>

    function Value(): Record
      reads this
    {
      Record(id, binding, source, generation, revision, patch, threads, submissions, lastReturn, changes, progress, receipts)
    }

    constructor Load(r: Record)
      ensures Value() == r
    {
      id, binding, source := r.id, r.binding, r.source;
      generation, revision, patch := r.generation, r.revision, r.patch;
      threads, submissions, lastReturn := r.threads, r.submissions, r.lastReturn;
      changes, progress, receipts := r.changes, r.progress, r.receipts;
    }

    // What a handler promises: the outcome function's record and detail, or its error.
    // After an error the record may be half changed; `Call` then drops it.
    ghost predicate Follows(out: Outcome, r: Result<Detail, Error>)
      reads this
    {
      match out
      case Done(after, detail) => r == Ok(detail) && Value() == after
      case Refused(e) => r == Err(e)
    }

    // The threads' part of a refresh, thread by thread.
    method RetainThreads(retained: set<string>)
      modifies this`threads
      ensures threads == RefreshThreads(old(threads), generation, retained)
    {
      hide RefreshThreads;
      var i := 0;
      while i < |threads|
        invariant 0 <= i <= |threads| == |old(threads)|
        invariant forall k :: 0 <= k < i ==> threads[k] == RefreshThread(old(threads)[k], generation, retained)
        invariant forall k :: i <= k < |threads| ==> threads[k] == old(threads)[k]
      {
        var t := threads[i];
        if t.anchor.file in retained {
          if !t.stale { threads := threads[i := t.(generation := generation)]; }
        } else {
          threads := threads[i := t.(stale := true)];
        }
        i := i + 1;
      }
    }

    method Refresh(newPatch: Str, newSource: Option<Json>, retained: set<string>) returns (r: Result<Detail, Error>)
      modifies this
      ensures Follows(DoRefresh(old(Value()), newPatch, newSource, retained), r)
    {
      hide RefreshThreads, KeepFiles, KeepHunks;
      if |newPatch| > MAX_SNAPSHOT_BYTES { return Err(Invalid(SnapshotLimit)); }
      if newSource.Some? && newSource.value != source { return Err(Invalid(SourceChanged)); }
      var changed := newPatch != patch;
      if changed {
        patch := newPatch;
        if generation >= U64_MAX { return Err(Invalid(GenerationLimit)); }
        generation := generation + 1;
        RetainThreads(retained);
        progress := RetainProgress(progress, retained);
        lastReturn := None;
      }
      r := Ok(Refreshed(changed));
    }

    method Add(anchor: Anchor, d: Draft, next: nat, env: Env) returns (r: Result<Detail, Error>)
      modifies this
      ensures Follows(DoAdd(old(Value()), anchor, d, next, env), r)
    {
      if |threads| >= MAX_REVIEW_THREADS { return Err(Invalid(ThreadLimit)); }
      if TotalMessages(threads) >= MAX_REVIEW_MESSAGES { return Err(Invalid(MessageLimit)); }
      if AnchorError(anchor).Some? { return Err(AnchorError(anchor).value); }
      if DraftError(d).Some? { return Err(DraftError(d).value); }
      var m := NewMessage(d, next, None, env.uid1);
      var t := Thread(EntityId(ThreadEntity, env.uid2), anchor, [m], generation, false, Disposition.Open);
      threads := threads + [t];
      r := Ok(Commented(View(t), m));
    }

    method Reply(threadId: string, replyTo: string, d: Draft, next: nat, env: Env) returns (r: Result<Detail, Error>)
      modifies this
      ensures Follows(DoReply(old(Value()), threadId, replyTo, d, next, env), r)
    {
      if TotalMessages(threads) >= MAX_REVIEW_MESSAGES { return Err(Invalid(MessageLimit)); }
      var i := FindThread(threads, threadId);
      if i == |threads| { return Err(Missing(ThreadNotFound)); }
      if FindMessage(threads[i].messages, replyTo) == |threads[i].messages| { return Err(Invalid(InvalidReply)); }
      if DraftError(d).Some? { return Err(DraftError(d).value); }
      var m := NewMessage(d, next, Some(replyTo), env.uid1);
      threads := threads[i := threads[i].(messages := threads[i].messages + [m])];
      r := Ok(Commented(View(threads[i]), m));
    }

    // Edit and remove share one body; a removal carries no new text.
    method EditOrRemove(messageId: string, body: Option<string>, next: nat) returns (r: Result<Detail, Error>)
      modifies this
      ensures Follows(if body.Some? then DoEdit(old(Value()), messageId, body.value, next) else DoRemove(old(Value()), messageId, next), r)
    {
      var i := FindThreadOf(threads, messageId);
      if i == |threads| { return Err(Missing(MessageNotFound)); }
      var messages := threads[i].messages;
      var k := FindMessage(messages, messageId);
      if messages[k].origin != Human { return Err(Invalid(HumanMessageRequired)); }
      if body.Some? && exists j :: k < j < |messages| && LiveHuman(messages[j]) { return Err(Invalid(LatestMessageRequired)); }
      var m := messages[k];
      if body.None? {
        m := m.(body := "", deleted := true);
      } else {
        if m.deleted { return Err(Invalid(MessageDeleted)); }
        if !Bounded(body.value, MAX_BODY_BYTES) { return Err(Invalid(InvalidParams)); }
        m := m.(body := body.value);
      }
      m := m.(revision := next);
      threads := threads[i := threads[i].(messages := messages[k := m])];
      r := Ok(Commented(View(threads[i]), m));
    }

    method Submit(selected: Option<seq<string>>, next: nat, env: Env) returns (r: Result<Detail, Error>)
      modifies this
      ensures Follows(DoSubmit(old(Value()), selected, next, env), r)
    {
      if |submissions| >= MAX_FEEDBACK_SUBMISSIONS { return Err(Invalid(SubmissionLimit)); }
      if selected.Some? && !AllThreads(threads, selected.value) { return Err(Invalid(ThreadNotFound)); }
      var news: seq<Thread> := [];
      for i := 0 to |threads|
        invariant news == News(threads[..i], selected, submissions)
      {
        assert threads[..i + 1][..i] == threads[..i];
        if Selected(selected, threads[i].id) && HasNews(submissions, threads[i]) { news := news + [threads[i]]; }
      }
      assert threads[..|threads|] == threads;
      if news == [] { return Err(Invalid(NoFeedback)); }
      var s := Submission(EntityId(SubmissionEntity, env.uid1), ThreadIds(news), MessageIds(news), generation, next, [], news);
      submissions := submissions + [s];
      r := Ok(Submitted(s));
    }

    method Acknowledge(submissionId: string, consumer: Option<string>) returns (r: Result<Detail, Error>)
      modifies this
      ensures Follows(DoAcknowledge(old(Value()), submissionId, consumer), r)
    {
      var name := Consumer(consumer);
      if !Bounded(name, 256) { return Err(Invalid(InvalidParams)); }
      var i := FindSubmission(submissions, submissionId);
      if i == |submissions| { return Err(Missing(SubmissionNotFound)); }
      if name !in submissions[i].acknowledgedBy {
        if |submissions[i].acknowledgedBy| >= MAX_CONSUMERS { return Err(Invalid(ConsumerLimit)); }
        submissions := submissions[i := submissions[i].(acknowledgedBy := submissions[i].acknowledgedBy + [name])];
      }
      r := Ok(Detail.Acknowledged(submissionId, name));
    }

    method Finish(outcome: Verdict, submissionIds: Option<seq<string>>, next: nat) returns (r: Result<Detail, Error>)
      modifies this
      ensures Follows(DoFinish(old(Value()), outcome, submissionIds, next), r)
    {
      if outcome.OtherVerdict? { return Err(Invalid(InvalidOutcome)); }
      var ids := if submissionIds.Some? then submissionIds.value else [];
      if !AllSubmittedNow(Value(), ids) { return Err(Invalid(InvalidSubmission)); }
      if outcome == SubmittedVerdict && ids == [] { return Err(Invalid(InvalidSubmission)); }
      if outcome != SubmittedVerdict && ids != [] { return Err(Invalid(InvalidSubmission)); }
      lastReturn := Some(Return(outcome, ids, next));
      r := Ok(Finished(outcome, ids));
    }

    method SetDisposition(threadId: string, disposition: Disposition) returns (r: Result<Detail, Error>)
      modifies this
      ensures Follows(DoDisposition(old(Value()), threadId, disposition), r)
    {
      if disposition.OtherDisposition? { return Err(Invalid(InvalidDisposition)); }
      var i := FindThread(threads, threadId);
      if i == |threads| { return Err(Missing(ThreadNotFound)); }
      threads := threads[i := threads[i].(disposition := disposition)];
      r := Ok(Disposed(threadId, disposition));
    }

    method SetProgress(u: ProgressUpdate) returns (r: Result<Detail, Error>)
      modifies this
      ensures Follows(DoProgress(old(Value()), u), r)
    {
      if u.MarkFile? {
        if FileError(u.file).Some? { return Err(FileError(u.file).value); }
        progress := progress.(files := Without(progress.files, u.file));
        if u.reviewed { progress := progress.(files := progress.files + [u.file]); }
        assert progress == UpdatedProgress(old(progress), u);
      } else {
        if u.files.Some? { progress := progress.(files := u.files.value); }
        if u.hunks.Some? { progress := progress.(hunks := u.hunks.value); }
        if u.verdict.Some? { progress := progress.(verdict := if u.verdict.value == JsonNull then None else u.verdict); }
      }
      var e := ProgressError(progress);
      if e.Some? { return Err(e.value); }
      r := Ok(Progressed(|progress.files|, |progress.hunks|));
    }

    method Reanchor(updates: seq<AnchorUpdate>, progressUpdate: Option<ProgressUpdate>) returns (r: Result<Detail, Error>)
      modifies this
      ensures Follows(DoReanchor(old(Value()), updates, progressUpdate), r)
    {
      if |updates| > MAX_REVIEW_THREADS { return Err(Invalid(ThreadLimit)); }
      var seen: set<string> := {};
      for i := 0 to |updates|
        invariant Value() == old(Value()).(threads := threads)
        invariant ReanchorThreads(threads, updates[i..], generation, seen) == ReanchorThreads(old(threads), updates, generation, {})
      {
        var u := updates[i];
        assert updates[i..][0] == u && updates[i..][1..] == updates[i + 1..];
        if AnchorError(u.anchor).Some? { return Err(AnchorError(u.anchor).value); }
        if u.threadId in seen { return Err(Invalid(InvalidParams)); }
        seen := seen + {u.threadId};
        if u.generation.Some? && u.generation.value != generation { return Err(Invalid(StaleGeneration)); }
        var k := FindThread(threads, u.threadId);
        if k == |threads| { return Err(Missing(ThreadNotFound)); }
        threads := threads[k := threads[k].(anchor := u.anchor, stale := u.stale, generation := generation)];
      }
      if progressUpdate.Some? {
        var p := SetProgress(progressUpdate.value);
        if p.Err? { return Err(p.error); }
      }
      r := Ok(Reanchored(|updates|));
    }

    method Dispatch(p: Params, next: nat, env: Env) returns (r: Result<Detail, Error>)
      modifies this
      ensures Follows(Handle(old(Value()), p, next, env), r)
    {
      hide DoRefresh, DoAdd, DoReply, DoEdit, DoRemove, DoSubmit, DoAcknowledge, DoFinish, DoDisposition, DoProgress, DoReanchor;
      match p
      case Refresh(newPatch, newSource) => r := Refresh(newPatch, newSource, env.retained);
      case AddComment(anchor, draft) => r := Add(anchor, draft, next, env);
      case Reply(threadId, replyTo, draft) => r := Reply(threadId, replyTo, draft, next, env);
      case Edit(messageId, body) => r := EditOrRemove(messageId, Some(body), next);
      case Remove(messageId) => r := EditOrRemove(messageId, None, next);
      case Submit(selected) => r := Submit(selected, next, env);
      case Acknowledge(submissionId, consumer) => r := Acknowledge(submissionId, consumer);
      case Finish(outcome, ids) => r := Finish(outcome, ids, next);
      case SetDisposition(threadId, disposition) => r := SetDisposition(threadId, disposition);
      case SetProgress(update) => r := SetProgress(update);
      case Reanchor(updates, update) => r := Reanchor(updates, update);
      case Begin =>
        lastReturn := None;
        r := Ok(Begun);
    }

    // The counter, the change log and the receipt of a mutation that succeeded.
    method Conclude(q: Request, next: nat, detail: Detail)
      modifies this
      ensures Value() == Complete(old(Value()), q, next, detail)
    {
      revision := next;
      changes := changes + [Change(next, MethodKind(q.params), if detail.Commented? then Some(detail.thread.id) else None, generation)];
      if |changes| > MAX_REVIEW_CHANGES { changes := changes[1..]; }
      var client := if q.params.Refresh? then Some(ClientPart(q)) else None;
      receipts := receipts + [Receipt(q.mutationId, q, client, Compact(Answer(id, generation, next, detail)))];
    }
  }

  // The checkpoint directory, under its lock.
  class ReviewStore {
    var files: Store

    constructor ()
      ensures files == map[]
    {
      files := map[];
    }

    method Read(id: string) returns (r: Result<Record, Error>)
      ensures r == (if LoadError(files, id).Some? then Err(LoadError(files, id).value) else Ok(files[id]))
    {
      if !ValidId(id) { return Err(Invalid(InvalidReviewId)); }
      if id !in files { return Err(Missing(ReviewNotFound)); }
      var good := ValidateRecord(files[id]);
      if files[id].id != id || !good { return Err(Invalid(InvalidCheckpoint)); }
      r := Ok(files[id]);
    }

    method Persist(rec: Record) returns (ok: bool)
      modifies this
      ensures ok == ValidRecord(rec)
      ensures files == if ok then old(files)[rec.id := rec] else old(files)
    {
      ok := ValidateRecord(rec);
      if ok { files := files[rec.id := rec]; }
    }

    // One mutation: exactly the step that the theorems about runs are about.
    method Mutation(q: Request, env: Env) returns (reply: Result<Answer, Error>)
      modifies this
      ensures (files, reply) == Call(old(files), q, env)
    {
      hide ValidRecord, Handle, Bounded, Complete, ReceiptResult;
      var loaded := Read(q.reviewId);
      if loaded.Err? { return Err(loaded.error); }
      assert files[q.reviewId := files[q.reviewId]] == files;
      var early := Precheck(loaded.value, q);
      if early.Some? { return early.value; }
      var review := new ReviewRecord.Load(loaded.value);
      var next := review.revision + 1;
      var result := review.Dispatch(q.params, next, env);
      if result.Err? { return Err(result.error); }
      HandleKeepsId(loaded.value, q.params, next, env);
      review.Conclude(q, next, result.value);
      CompleteFields(Handle(loaded.value, q.params, next, env).record, q, next, result.value);
      var stored := Persist(review.Value());
      if !stored { return Err(Invalid(InvalidCheckpoint)); }
      reply := Ok(Answer(review.id, review.generation, next, result.value));
    }

    method ReconcileRefresh(c: ClientRequest) returns (reply: Result<Option<Answer>, Error>)
      ensures reply == Reconcile(files, c)
    {
      hide ValidRecord, Bounded;
      if !Bounded(c.mutationId, 256) { return Err(Invalid(InvalidParams)); }
      var loaded := Read(c.reviewId);
      if loaded.Err? { return Err(loaded.error); }
      var rec := loaded.value;
      var i := FindReceipt(rec.receipts, c.mutationId);
      if i == |rec.receipts| { return Ok(None); }
      if rec.receipts[i].client != Some(c) { return Err(Conflict(MutationConflict)); }
      var result := ReceiptResult(rec, rec.receipts[i]);
      match result
      case Ok(a) => reply := Ok(Some(a));
      case Err(e) => reply := Err(e);
    }

    // The ids in the directory, sorted.
    method Ids() returns (ids: seq<string>)
      ensures Listing(files, ids)
    {
      ids := [];
      var pending := files.Keys;
      while pending != {}
        invariant pending <= files.Keys
        invariant forall id :: id in ids <==> id in files && ValidId(id) && id !in pending
        invariant Ascending(ids)
        decreases |pending|
      {
        hide ValidId, Ascending, Insert;
        var id :| id in pending;
        pending := pending - {id};
        if ValidId(id) {
          Inserted(ids, id);
          ids := Insert(ids, id);
        }
      }
    }

    // Looks through the directory for the review of this binding and source.
    method OpenReview(args: OpenArgs, uid: string) returns (r: Result<Record, Error>)
      modifies this
      ensures exists ids :: Listing(old(files), ids) && (files, r) == OpenIn(old(files), ids, args, uid)
    {
      hide ValidRecord, OpenError, NewRecord, LoadError, Listing;
      var ids := Ids();
      if OpenError(args).Some? { return Err(OpenError(args).value); }
      if args.reviewId.Some? {
        r := Read(args.reviewId.value);
        if r.Ok? && (r.value.binding.repository != args.binding.repository || r.value.source != args.source) {
          r := Err(Invalid(ReviewBindingMismatch));
        }
        return;
      }
      for i := 0 to |ids|
        invariant files == old(files)
        invariant Scan(files, ids, args) == Scan(files, ids[i..], args)
      {
        var review := Read(ids[i]);
        assert ids[i..][1..] == ids[i + 1..];
        if review.Err? { return review; }
        if Matches(review.value, args) { return review; }
      }
      var review := NewRecord(args, uid);
      assert review.id == uid by { NewId(args, uid); }
      var stored := Persist(review);
      r := if stored then Ok(review) else Err(Invalid(InvalidCheckpoint));
    }
  }

  lemma {:induction false} NewId(args: OpenArgs, uid: string)
    ensures NewRecord(args, uid).id == uid
  {
  }

  // ---- sorted ids ----

  predicate Ascending(ids: seq<string>) {
    forall i, j :: 0 <= i < j < |ids| ==> Before(ids[i], ids[j])
  }

  function Insert(ids: seq<string>, id: string): seq<string> {
    if ids == [] || Before(id, ids[0]) then [id] + ids else [ids[0]] + Insert(ids[1..], id)
  }

  lemma {:induction false} OneOrder(a: string, b: string)
    ensures a != b ==> Before(a, b) || Before(b, a)
    ensures !(Before(a, b) && Before(b, a)) && !Before(a, a)
    decreases |a|
  {
    if a != "" && b != "" {
      OneOrder(a[1..], b[1..]);
      assert a[0] == b[0] && a[1..] == b[1..] ==> a == b by { assert a == [a[0]] + a[1..] && b == [b[0]] + b[1..]; }
    }
    if a != "" { OneOrder(a[1..], a[1..]); }
  }

  lemma {:induction false} BeforeTransitive(a: string, b: string, c: string)
    requires Before(a, b) && Before(b, c)
    ensures Before(a, c)
    decreases |a|
  {
    if a != "" && a[0] == b[0] && b[0] == c[0] { BeforeTransitive(a[1..], b[1..], c[1..]); }
  }

  lemma {:induction false} Inserted(ids: seq<string>, id: string)
    requires Ascending(ids) && id !in ids
    ensures Ascending(Insert(ids, id)) && forall x :: x in Insert(ids, id) <==> x == id || x in ids
    decreases |ids|
  {
    hide Before;
    if ids != [] {
      OneOrder(id, ids[0]);
      var rest := ids[1..];
      if Before(id, ids[0]) {
        forall j | 0 <= j < |ids| ensures Before(id, ids[j]) {
          if j > 0 { BeforeTransitive(id, ids[0], ids[j]); }
        }
      } else {
        assert ids == [ids[0]] + rest;
        Inserted(rest, id);
        assert forall x :: x in rest ==> Before(ids[0], x);
      }
    }
  }

  lemma {:induction false} HasFirst(ids: seq<string>)
    ensures ids != [] ==> exists id :: id in ids
  {
    assert ids != [] ==> ids[0] in ids;
  }

  // The directory has one listing.
  lemma {:induction false} OneListing(ids: seq<string>, others: seq<string>)
    requires Ascending(ids) && Ascending(others) && forall id :: id in ids <==> id in others
    ensures ids == others
    decreases |ids|
  {
    hide Before;
    if ids == [] {
      HasFirst(others);
    } else {
      assert ids[0] in others && others[0] in ids;
      OneOrder(ids[0], others[0]);
      OneOrder(ids[0], ids[0]);
      OneOrder(others[0], others[0]);
      assert ids[0] == others[0];
      var x, y := ids[1..], others[1..];
      assert forall id :: id in x <==> id in ids && id != ids[0];
      assert forall id :: id in y <==> id in others && id != others[0];
      OneListing(x, y);
      assert ids == [ids[0]] + x && others == [others[0]] + y;
    }
  }

  lemma {:induction false} HandleKeepsId(r: Record, p: Params, revision: nat, env: Env)
    requires Handle(r, p, revision, env).Done?
    ensures Handle(r, p, revision, env).record.id == r.id
  {
    hide ReanchorThreads, RefreshThreads, KeepFiles, KeepHunks, ProgressError, AnchorError, DraftError, FindMessage, FindThreadOf,
      News, FindThread, TotalMessages, UpdatedProgress;
  }

  lemma {:induction false} CompleteFields(h: Record, q: Request, next: nat, detail: Detail)
    ensures var c := Complete(h, q, next, detail);
            c.id == h.id && c.generation == h.generation && c.revision == next
  {
  }
}
