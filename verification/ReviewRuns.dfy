// The store as a state machine: any number of clients call it in any order, each
// call is one atomic step under the directory lock, and a crash may lose the call
// before it is persisted or the reply after.  The theorems are about whole runs.
module ReviewRuns {
  import opened Wrappers
  import opened Utf8
  import opened ReviewTypes
  import opened ReviewHandlers
  import opened ReviewInvariant
  import opened ReviewPages

  type Store = map<string, Record>

  // ---- steps ----

  // One mutation on a loaded record: the record to keep, and the reply.
  function Mutate(rec: Record, q: Request, env: Env): (Record, Result<Answer, Error>) {
    var early := Precheck(rec, q);
    if early.Some? then (rec, early.value)
    else
      match Handle(rec, q.params, rec.revision + 1, env)
      case Refused(e) => (rec, Err(e))
      case Done(h, detail) =>
        var c := Complete(h, q, rec.revision + 1, detail);
        if ValidRecord(c) then (c, Ok(Answer(c.id, c.generation, c.revision, detail)))
        else (rec, Err(Invalid(InvalidCheckpoint)))
  }

  function LoadError(store: Store, id: string): Option<Error> {
    if !ValidId(id) then Some(Invalid(InvalidReviewId))
    else if id !in store then Some(Missing(ReviewNotFound))
    else if store[id].id != id || !ValidRecord(store[id]) then Some(Invalid(InvalidCheckpoint))
    else None
  }

  function Call(store: Store, q: Request, env: Env): (Store, Result<Answer, Error>) {
    if LoadError(store, q.reviewId).Some? then (store, Err(LoadError(store, q.reviewId).value))
    else
      var (after, reply) := Mutate(store[q.reviewId], q, env);
      (store[q.reviewId := after], reply)
  }

  // `reconcile_refresh`: a refresh retried before its adapter reads a newer source.
  function Reconcile(store: Store, c: ClientRequest): Result<Option<Answer>, Error> {
    if !Bounded(c.mutationId, 256) then Err(Invalid(InvalidParams))
    else if LoadError(store, c.reviewId).Some? then Err(LoadError(store, c.reviewId).value)
    else
      var rec := store[c.reviewId];
      var i := FindReceipt(rec.receipts, c.mutationId);
      if i == |rec.receipts| then Ok(None)
      else if rec.receipts[i].client == Some(c) then
        match ReceiptResult(rec, rec.receipts[i])
        case Ok(a) => Ok(Some(a))
        case Err(e) => Err(e)
      else Err(Conflict(MutationConflict))
  }

  datatype OpenArgs = OpenArgs(binding: Binding, source: Json, patch: Str, reviewId: Option<string>)

  function OpenError(args: OpenArgs): Option<Error> {
    if !Bounded(args.binding.harness, 128) || !Bounded(args.binding.conversation, 1024) then Some(Invalid(InvalidParams))
    else if |args.patch| > MAX_SNAPSHOT_BYTES then Some(Invalid(SnapshotLimit))
    else if args.source.JsonNull? || Utf8Size(args.source.encoding) > 16 * 1024 then Some(Invalid(InvalidSource))
    else None
  }

  function NewRecord(args: OpenArgs, uid: string): Record {
    Record(uid, args.binding, args.source, 1, 1, args.patch, [], [], None,
           [Change(1, ReviewOpened, None, 1)], Progress([], [], None), [])
  }

  predicate Matches(rec: Record, args: OpenArgs) {
    rec.binding == args.binding && rec.source == args.source
  }

  // Resumes the review of this binding and source, or starts one.
  ghost function OpenOrResume(store: Store, args: OpenArgs, uid: string): (Store, Result<Record, Error>) {
    if OpenError(args).Some? then (store, Err(OpenError(args).value))
    else if args.reviewId.Some? then
      var id := args.reviewId.value;
      if LoadError(store, id).Some? then (store, Err(LoadError(store, id).value))
      else if store[id].binding.repository != args.binding.repository || store[id].source != args.source
      then (store, Err(Invalid(ReviewBindingMismatch)))
      else (store, Ok(store[id]))
    else if exists id :: id in store && Matches(store[id], args) then
      var id :| id in store && Matches(store[id], args);
      (store, Ok(store[id]))
    else (store[uid := NewRecord(args, uid)], Ok(NewRecord(args, uid)))
  }

  // Byte order on ids, which are ASCII.
  predicate Before(a: string, b: string) {
    b != "" && (a == "" || a[0] < b[0] || (a[0] == b[0] && Before(a[1..], b[1..])))
  }

  // The directory's review ids in order; other file names are passed over.
  ghost predicate Listing(store: Store, ids: seq<string>) {
    && (forall id :: id in ids <==> id in store && ValidId(id))
    && forall i, j :: 0 <= i < j < |ids| ==> Before(ids[i], ids[j])
  }

  // The first checkpoint that cannot be loaded, or is of this binding and source, decides.
  function Scan(store: Store, ids: seq<string>, args: OpenArgs): Option<Result<Record, Error>> {
    if ids == [] then None
    else if LoadError(store, ids[0]).Some? then Some(Err(LoadError(store, ids[0]).value))
    else if Matches(store[ids[0]], args) then Some(Ok(store[ids[0]]))
    else Scan(store, ids[1..], args)
  }

  // `open` on any directory with these ids.
  function OpenIn(store: Store, ids: seq<string>, args: OpenArgs, uid: string): (Store, Result<Record, Error>) {
    if OpenError(args).Some? then (store, Err(OpenError(args).value))
    else if args.reviewId.Some? then
      var id := args.reviewId.value;
      if LoadError(store, id).Some? then (store, Err(LoadError(store, id).value))
      else if store[id].binding.repository != args.binding.repository || store[id].source != args.source
      then (store, Err(Invalid(ReviewBindingMismatch)))
      else (store, Ok(store[id]))
    else
      var found := Scan(store, ids, args);
      if found.Some? then (store, found.value)
      else if ValidRecord(NewRecord(args, uid)) then (store[uid := NewRecord(args, uid)], Ok(NewRecord(args, uid)))
      else (store, Err(Invalid(InvalidCheckpoint)))
  }

  datatype Fate = Delivered | ReplyLost | LostBeforePersist

  datatype Event =
    | Opened(args: OpenArgs, uid: string)
    | Called(request: Request, env: Env, fate: Fate)

  ghost function Step(store: Store, e: Event): Store {
    match e
    case Opened(args, uid) => OpenOrResume(store, args, uid).0
    case Called(q, env, fate) => if fate.LostBeforePersist? then store else Call(store, q, env).0
  }

  ghost function Run(store: Store, es: seq<Event>): Store
    decreases |es|
  {
    if es == [] then store else Run(Step(store, es[0]), es[1..])
  }

  // `unique_id` supplies ids that are not in use, and a repository path is absolute.
  ghost predicate FreshEvent(store: Store, e: Event) {
    match e
    case Opened(args, uid) => ValidId(uid) && uid !in store && "/" <= args.binding.repository
    case Called(q, env, _) => q.reviewId in store ==> FreshIds(store[q.reviewId], env)
  }

  ghost predicate FreshRun(store: Store, es: seq<Event>)
    decreases |es|
  {
    es == [] || (FreshEvent(store, es[0]) && FreshRun(Step(store, es[0]), es[1..]))
  }

  // ---- every reachable record satisfies the invariant ----

  ghost predicate StoreInv(store: Store) {
    && (forall id :: id in store ==> store[id].id == id && Inv(store[id]))
    && forall a, b :: a in store && b in store && store[a].binding == store[b].binding && store[a].source == store[b].source ==> a == b
  }

  lemma {:induction false} NewRecordInv(args: OpenArgs, uid: string)
    requires OpenError(args).None? && ValidId(uid) && "/" <= args.binding.repository
    ensures Inv(NewRecord(args, uid)) && NewRecord(args, uid).id == uid && Matches(NewRecord(args, uid), args)
  {
    var r := NewRecord(args, uid);
    assert ValidHeader(r);
    assert forall m :: !Version(r, m);
  }

  // A checkpoint that loads and is of another binding or source.
  predicate Passed(store: Store, id: string, args: OpenArgs) {
    LoadError(store, id).None? && !Matches(store[id], args)
  }

  // What it decides when it is not.
  function Decision(store: Store, id: string): Result<Record, Error> {
    if LoadError(store, id).Some? then Err(LoadError(store, id).value) else Ok(store[id])
  }

  // Where a scan stops.
  predicate StopsAt(store: Store, ids: seq<string>, args: OpenArgs, k: nat) {
    k < |ids| && (forall j :: 0 <= j < k ==> Passed(store, ids[j], args)) && !Passed(store, ids[k], args)
  }

  lemma {:induction false} StopsLater(store: Store, ids: seq<string>, args: OpenArgs, k: nat)
    requires ids != [] && Passed(store, ids[0], args) && StopsAt(store, ids[1..], args, k)
    ensures StopsAt(store, ids, args, k + 1) && ids[k + 1] == ids[1..][k]
  {
    hide Passed;
    var rest := ids[1..];
    forall j | 0 <= j < k + 1 ensures Passed(store, ids[j], args) {
      if j > 0 { assert ids[j] == rest[j - 1]; }
    }
  }

  // A scan finds the first checkpoint that does not load or matches, and nothing when all
  // load and none matches.
  lemma {:induction false} ScanExact(store: Store, ids: seq<string>, args: OpenArgs)
    ensures match Scan(store, ids, args)
            case None => forall k :: 0 <= k < |ids| ==> Passed(store, ids[k], args)
            case Some(r) => exists k: nat :: k < |ids| && StopsAt(store, ids, args, k) && r == Decision(store, ids[k])
    decreases |ids|
  {
    ScanStep(store, ids, args);
    hide Scan, Passed, Decision, StopsAt, LoadError;
    if ids == [] {
    } else if Passed(store, ids[0], args) {
      var rest := ids[1..];
      ScanExact(store, rest, args);
      if Scan(store, rest, args).Some? {
        var k: nat :| k < |rest| && StopsAt(store, rest, args, k) && Scan(store, rest, args).value == Decision(store, rest[k]);
        StopsLater(store, ids, args, k);
      } else {
        forall k | 0 <= k < |ids| ensures Passed(store, ids[k], args) {
          if k > 0 { assert ids[k] == rest[k - 1]; }
        }
      }
    } else {
      assert StopsAt(store, ids, args, 0) by { StopsHere(store, ids, args); }
    }
  }

  lemma {:induction false} ScanStep(store: Store, ids: seq<string>, args: OpenArgs)
    ensures Scan(store, ids, args) ==
            if ids == [] then None
            else if Passed(store, ids[0], args) then Scan(store, ids[1..], args)
            else Some(Decision(store, ids[0]))
  {
    hide LoadError, Matches;
  }

  lemma {:induction false} StopsHere(store: Store, ids: seq<string>, args: OpenArgs)
    requires ids != [] && !Passed(store, ids[0], args)
    ensures StopsAt(store, ids, args, 0)
  {
    hide Passed;
  }

  lemma {:induction false} LoadsGood(store: Store, id: string)
    requires StoreInv(store) && id in store
    ensures LoadError(store, id).None? && ValidId(id)
  {
    hide ValidThreads, ValidSubmissions, ValidChanges, ValidReceipts, ValidProgress, Core, GapFree, OneContent, ReceiptOk;
  }

  lemma {:induction false} NewRecordIsValid(args: OpenArgs, uid: string)
    requires OpenError(args).None? && ValidId(uid) && "/" <= args.binding.repository
    ensures ValidRecord(NewRecord(args, uid))
  {
    NewRecordInv(args, uid);
    hide ValidRecord, NewRecord, OpenError;
  }

  // On the directories that runs reach, this is the step of the state machine.
  lemma {:induction false} OpenInReachable(store: Store, ids: seq<string>, args: OpenArgs, uid: string)
    requires StoreInv(store) && Listing(store, ids) && FreshEvent(store, Opened(args, uid))
    ensures OpenIn(store, ids, args, uid) == OpenOrResume(store, args, uid)
  {
    hide Inv, ValidRecord, NewRecord, OpenError, LoadError, ValidId;
    if OpenError(args).None? && args.reviewId.None? {
      ScanExact(store, ids, args);
      forall id | id in store ensures LoadError(store, id).None? && id in ids { LoadsGood(store, id); }
      NewRecordIsValid(args, uid);
    }
  }

  lemma {:induction false} SubmittedIsFound(r: Record, p: Params, revision: nat, env: Env)
    requires Handle(r, p, revision, env).Done?
    ensures var out := Handle(r, p, revision, env);
            && !out.detail.SubmittedRef?
            && (out.detail.Submitted? ==> p.Submit?)
            && (p.Submit? ==> FindSubmission(out.record.submissions, out.detail.submission.id) < |out.record.submissions|)
  {
    hide ReanchorThreads, RefreshThreads, KeepFiles, KeepHunks, ProgressError, AnchorError, DraftError, FindMessage, FindThreadOf,
      News, FindThread, TotalMessages, UpdatedProgress;
    if p.Submit? {
      var out := Handle(r, p, revision, env);
      assert out.record.submissions[|r.submissions|].id == out.detail.submission.id;
    }
  }

  // Mutations other than an acknowledgement keep every submission as it is.
  lemma {:induction false} OthersKeepSubmissions(r: Record, p: Params, revision: nat, env: Env)
    requires Handle(r, p, revision, env).Done? && !p.Acknowledge?
    ensures r.submissions <= Handle(r, p, revision, env).record.submissions
  {
    hide ReanchorThreads, RefreshThreads, KeepFiles, KeepHunks, ProgressError, AnchorError, DraftError, FindMessage, FindThreadOf,
      News, FindThread, TotalMessages, UpdatedProgress, Bounded;
  }

  lemma {:induction false} AcknowledgeAdds(r: Record, submissionId: string, consumer: Option<string>)
    requires DoAcknowledge(r, submissionId, consumer).Done?
    ensures var after := DoAcknowledge(r, submissionId, consumer).record.submissions;
            && AckRecorded(after, Acknowledge(submissionId, consumer))
            && |after| == |r.submissions|
            && forall k :: 0 <= k < |r.submissions| ==>
                 after[k] == r.submissions[k]
                 || (submissionId == r.submissions[k].id
                     && after[k].acknowledgedBy == r.submissions[k].acknowledgedBy + [Consumer(consumer)])
  {
    hide FindSubmission, Bounded;
    var after := DoAcknowledge(r, submissionId, consumer).record.submissions;
    assert forall k :: 0 <= k < |after| ==> after[k].id == r.submissions[k].id;
    SameIdsFind(r.submissions, after, submissionId);
  }

  // Only an acknowledgement by the consumer itself adds it to a submission.
  lemma {:induction false} HandleAcks(r: Record, p: Params, revision: nat, env: Env)
    requires Handle(r, p, revision, env).Done?
    ensures var after := Handle(r, p, revision, env).record.submissions;
            && AckRecorded(after, p)
            && |r.submissions| <= |after|
            && forall k :: 0 <= k < |r.submissions| ==>
                 after[k] == r.submissions[k]
                 || (p.Acknowledge? && p.submissionId == r.submissions[k].id
                     && after[k].acknowledgedBy == r.submissions[k].acknowledgedBy + [Consumer(p.consumer)])
  {
    if p.Acknowledge? {
      AcknowledgeAdds(r, p.submissionId, p.consumer);
      assert Handle(r, p, revision, env) == DoAcknowledge(r, p.submissionId, p.consumer);
      hide DoAcknowledge, Handle, AckRecorded;
    } else {
      hide Handle;
      OthersKeepSubmissions(r, p, revision, env);
    }
  }

  lemma {:induction false} SameIdsFind(ss: seq<Submission>, ts: seq<Submission>, id: string)
    requires |ss| == |ts| && forall k :: 0 <= k < |ss| ==> ss[k].id == ts[k].id
    ensures FindSubmission(ss, id) == FindSubmission(ts, id)
  {
    hide FindSubmission;
    var i, j := FindSubmission(ss, id), FindSubmission(ts, id);
    assert i < |ss| ==> ts[i].id == id;
    assert j < |ts| ==> ss[j].id == id;
  }

  // Each mutation that a handler accepts passes the record validation before persisting, raises
  // the revision by one, and the generation by one exactly when the patch changes.
  lemma {:induction false} MutateKeeps(r: Record, q: Request, env: Env)
    requires Inv(r) && FreshIds(r, env)
    ensures var (s, reply) := Mutate(r, q, env);
            && Inv(s) && Evolves(r, s)
            && s.id == r.id && s.binding == r.binding && s.source == r.source
            && (Precheck(r, q).None? && Handle(r, q.params, r.revision + 1, env).Done? ==>
                  && reply.Ok? && s.revision == r.revision + 1
                  && s.generation == r.generation + (if s.patch != r.patch then 1 else 0))
            && (!(Precheck(r, q).None? && Handle(r, q.params, r.revision + 1, env).Done?) ==> s == r)
  {
    hide Handle, HandlerPost, Evolves, FreshIds, Complete, ReceiptResult, AckRecorded;
    if Precheck(r, q).None? && Handle(r, q.params, r.revision + 1, env).Done? {
      var out := Handle(r, q.params, r.revision + 1, env);
      HandlePost(r, q.params, r.revision + 1, env);
      SubmittedIsFound(r, q.params, r.revision + 1, env);
      HandleAcks(r, q.params, r.revision + 1, env);
      CompletePost(r, out.record, q, out.detail);
    } else {
      EvolvesReflexive(r);
    }
  }

  // Under a mutation id not used before, exactly these calls succeed; the others change nothing.
  lemma {:induction false} CallExact(store: Store, q: Request, env: Env)
    requires StoreInv(store) && q.reviewId in store && FreshIds(store[q.reviewId], env) && !HasReceipt(store[q.reviewId], q.mutationId)
    ensures var r := store[q.reviewId];
            Call(store, q, env).1.Ok? <==>
              && Bounded(q.mutationId, 256) && |r.receipts| < MAX_MUTATION_RECEIPTS && q.generation == r.generation
              && (q.expectedRevision.Some? ==> q.expectedRevision.value == r.revision)
              && Handle(r, q.params, r.revision + 1, env).Done?
    ensures Call(store, q, env).1.Err? ==> Call(store, q, env).0 == store
  {
    hide StoreInv, Handle, FreshIds, Bounded, LoadError, Complete, ValidRecord, Inv, Evolves;
    var r := store[q.reviewId];
    Loads(store, q.reviewId);
    RevisionFits(r);
    MutateKeeps(r, q, env);
    assert store[q.reviewId := r] == store;
  }

  lemma {:induction false} RevisionFits(r: Record)
    requires Inv(r)
    ensures r.revision < U64_MAX
  {
    hide ValidThreads, ValidSubmissions, ValidHeader, Core, GapFree, OneContent;
  }

  // In particular a review can always be begun again while it has room for a receipt.
  lemma {:induction false} BeginAccepted(store: Store, id: string, mutationId: string, env: Env)
    requires StoreInv(store) && id in store && FreshIds(store[id], env) && !HasReceipt(store[id], mutationId)
    requires Bounded(mutationId, 256) && |store[id].receipts| < MAX_MUTATION_RECEIPTS
    ensures Call(store, Request(id, mutationId, store[id].generation, None, Begin), env).1.Ok?
  {
    hide StoreInv, FreshIds, Bounded, Call, HasReceipt;
    CallExact(store, Request(id, mutationId, store[id].generation, None, Begin), env);
  }

  lemma {:induction false} EvolvesReflexive(r: Record)
    ensures Evolves(r, r)
  {
  }

  ghost predicate Advances(store: Store, next: Store) {
    StoreInv(next) && forall id :: id in store ==> id in next && Evolves(store[id], next[id])
  }

  lemma {:induction false} Unmoved(store: Store)
    requires StoreInv(store)
    ensures Advances(store, store)
  {
    hide Inv, Evolves;
    forall id | id in store ensures Evolves(store[id], store[id]) { EvolvesReflexive(store[id]); }
  }

  // Replacing one record by a later one of the same binding and source.
  lemma {:induction false} OneAdvances(store: Store, id: string, s: Record)
    requires StoreInv(store) && id in store && Inv(s) && Evolves(store[id], s)
    requires s.id == id && s.binding == store[id].binding && s.source == store[id].source
    ensures Advances(store, store[id := s])
  {
    hide Inv, Evolves;
    var next := store[id := s];
    forall a | a in next ensures next[a].id == a && Inv(next[a]) {}
    forall a, b | a in next && b in next && next[a].binding == next[b].binding && next[a].source == next[b].source ensures a == b {
      assert store[a].binding == store[b].binding && store[a].source == store[b].source;
    }
    forall a | a in store ensures Evolves(store[a], next[a]) { EvolvesReflexive(store[a]); }
  }

  lemma {:induction false} OneJoins(store: Store, args: OpenArgs, uid: string, s: Record)
    requires StoreInv(store) && uid !in store && Inv(s) && s.id == uid && Matches(s, args)
    requires forall id :: id in store ==> !Matches(store[id], args)
    ensures Advances(store, store[uid := s])
  {
    hide Inv, Evolves;
    forall a | a in store ensures Evolves(store[a], store[a]) { EvolvesReflexive(store[a]); }
  }

  lemma {:induction false} StepKeeps(store: Store, e: Event)
    requires StoreInv(store) && FreshEvent(store, e)
    ensures Advances(store, Step(store, e))
  {
    hide Inv, Evolves, Mutate, FreshIds, NewRecord, OpenError, Advances, Matches;
    Unmoved(store);
    match e
    case Called(q, env, _) =>
      if q.reviewId in store {
        MutateKeeps(store[q.reviewId], q, env);
        OneAdvances(store, q.reviewId, Mutate(store[q.reviewId], q, env).0);
      }
    case Opened(args, uid) =>
      if OpenError(args).None? && args.reviewId.None? && !exists id :: id in store && Matches(store[id], args) {
        NewRecordInv(args, uid);
        OneJoins(store, args, uid, NewRecord(args, uid));
      }
  }

  lemma {:induction false} RunKeeps(store: Store, es: seq<Event>)
    requires StoreInv(store) && FreshRun(store, es)
    ensures Advances(store, Run(store, es))
    decreases |es|
  {
    hide StoreInv, Evolves, Step, FreshEvent;
    if es == [] {
      Unmoved(store);
    } else {
      var next := Step(store, es[0]);
      StepKeeps(store, es[0]);
      RunKeeps(next, es[1..]);
      forall id | id in store ensures id in Run(next, es[1..]) && Evolves(store[id], Run(next, es[1..])[id]) {
        EvolvesTransitive(store[id], next[id], Run(next, es[1..])[id]);
      }
    }
  }

  // Every record reachable from an empty directory passes `validate_record`, its
  // threads are current, and its counters are tied together.
  lemma {:induction false} ReachableRecord(es: seq<Event>, id: string)
    requires FreshRun(map[], es) && id in Run(map[], es)
    ensures var r := Run(map[], es)[id];
            && ValidRecord(r) && r.revision == |r.receipts| + 1 && GapFree(r)
            && (forall i :: 0 <= i < |r.threads| ==>
                  r.threads[i].generation <= r.generation && (!r.threads[i].stale ==> r.threads[i].generation == r.generation))
            && (r.lastReturn.Some? ==> AllSubmittedNow(r, r.lastReturn.value.submissionIds))
  {
    hide Run, FreshRun, ValidRecord, GapFree, OneContent, ValidThreads, ValidSubmissions;
    RunKeeps(map[], es);
  }

  // A binding and source have one review: opening again, after any run, resumes it as it stands.
  lemma {:induction false} StillMatches(r: Record, s: Record, args: OpenArgs)
    requires Matches(r, args) && Evolves(r, s)
    ensures Matches(s, args)
  {
  }

  lemma {:induction false} OpensMatching(store: Store, args: OpenArgs, uid: string)
    requires StoreInv(store) && FreshEvent(store, Opened(args, uid)) && OpenError(args).None? && args.reviewId.None?
    ensures var (next, r) := OpenOrResume(store, args, uid); r.Ok? && r.value.id in next && Matches(next[r.value.id], args)
  {
    hide Inv, OpenError, LoadError;
  }

  lemma {:induction false} ResumesMatching(store: Store, args: OpenArgs, uid: string, id: string)
    requires StoreInv(store) && OpenError(args).None? && args.reviewId.None? && id in store && Matches(store[id], args)
    ensures OpenOrResume(store, args, uid) == (store, Ok(store[id]))
  {
    hide Inv, OpenError, LoadError;
  }

  lemma {:induction false} OpenResumes(store: Store, args: OpenArgs, uid: string, later: seq<Event>, uid': string)
    requires StoreInv(store) && FreshEvent(store, Opened(args, uid)) && OpenError(args).None? && args.reviewId.None?
    requires FreshRun(Step(store, Opened(args, uid)), later)
    ensures var id := OpenOrResume(store, args, uid).1.value.id;
            var now := Run(Step(store, Opened(args, uid)), later);
            id in now && OpenOrResume(now, args, uid') == (now, Ok(now[id]))
  {
    hide Inv, Run, FreshRun, OpenError, Evolves, OpenOrResume, Matches, StoreInv, FreshEvent;
    var first := Step(store, Opened(args, uid));
    var now := Run(first, later);
    OpensMatching(store, args, uid);
    var id := OpenOrResume(store, args, uid).1.value.id;
    StepKeeps(store, Opened(args, uid));
    RunKeeps(first, later);
    StillMatches(first[id], now[id], args);
    ResumesMatching(now, args, uid', id);
  }

  lemma {:induction false} EvolvesKeepsBinding(r: Record, s: Record)
    requires Evolves(r, s)
    ensures s.binding == r.binding && s.source == r.source && r.receipts <= s.receipts && SubmissionsKept(r.submissions, s.submissions)
  {
  }

  // ---- exactly once ----

  lemma {:induction false} FindReceiptKept(before: seq<Receipt>, after: seq<Receipt>, mutationId: string)
    requires before <= after && FindReceipt(before, mutationId) < |before|
    ensures FindReceipt(after, mutationId) == FindReceipt(before, mutationId)
  {
    var i := FindReceipt(before, mutationId);
    assert forall k :: 0 <= k < |before| ==> after[k] == before[k];
    assert after[i].mutationId == mutationId;
  }

  lemma {:induction false} ReceiptResultKept(r: Record, s: Record, receipt: Receipt)
    requires SubmissionsKept(r.submissions, s.submissions) && ReceiptResult(r, receipt).Ok?
    ensures ReceiptResult(s, receipt) == ReceiptResult(r, receipt)
  {
    if receipt.result.detail.SubmittedRef? {
      var i := FindSubmission(r.submissions, receipt.result.detail.submissionId);
      FindKept(r.submissions, s.submissions, receipt.result.detail.submissionId);
      assert SameSubmission(r.submissions[i], s.submissions[i]);
    }
  }

  // The record holds the receipt of an accepted request, and the receipt yields the reply.
  predicate Remembers(r: Record, q: Request, answer: Answer) {
    var i := FindReceipt(r.receipts, q.mutationId);
    i < |r.receipts| && r.receipts[i].request == q && ReceiptResult(r, r.receipts[i]) == Ok(answer)
  }

  lemma {:induction false} FindAppended(receipts: seq<Receipt>, receipt: Receipt)
    requires FindReceipt(receipts, receipt.mutationId) == |receipts|
    ensures FindReceipt(receipts + [receipt], receipt.mutationId) == |receipts|
  {
    assert (receipts + [receipt])[|receipts|] == receipt;
    assert forall k :: 0 <= k < |receipts| ==> (receipts + [receipt])[k] == receipts[k];
  }

  // The stored reference resolves to the submission that was answered.
  lemma {:induction false} SubmitAnswer(r: Record, p: Params, revision: nat, env: Env)
    requires FreshIds(r, env) && p.Submit? && Handle(r, p, revision, env).Done?
    ensures var out := Handle(r, p, revision, env);
            && FindSubmission(out.record.submissions, out.detail.submission.id) == |r.submissions|
            && out.record.submissions == r.submissions + [out.detail.submission]
            && out.detail.submission.acknowledgedBy == []
            && out.record == r.(submissions := out.record.submissions)
  {
    hide News, ThreadIds, MessageIds, HasThread, HasMessage;
    var out := DoSubmit(r, p.threadIds, revision, env);
    FindAppendedSubmission(r.submissions, out.detail.submission);
  }

  lemma {:induction false} FindAppendedSubmission(submissions: seq<Submission>, s: Submission)
    requires FindSubmission(submissions, s.id) == |submissions|
    ensures FindSubmission(submissions + [s], s.id) == |submissions|
  {
    assert (submissions + [s])[|submissions|] == s;
    assert forall k :: 0 <= k < |submissions| ==> (submissions + [s])[k] == submissions[k];
  }

  lemma {:induction false} AcceptedIsRemembered(r: Record, q: Request, env: Env)
    requires FreshIds(r, env) && Mutate(r, q, env).1.Ok?
    ensures Bounded(q.mutationId, 256) && Remembers(Mutate(r, q, env).0, q, Mutate(r, q, env).1.value)
  {
    hide Handle, ValidRecord, FreshIds, Bounded;
    if Precheck(r, q).None? {
      var s := Mutate(r, q, env).0;
      var out := Handle(r, q.params, r.revision + 1, env);
      SubmittedIsFound(r, q.params, r.revision + 1, env);
      HandleKeepsReceipts(r, q.params, r.revision + 1, env);
      FindAppended(r.receipts, s.receipts[|r.receipts|]);
      if out.detail.Submitted? { SubmitAnswer(r, q.params, r.revision + 1, env); }
    }
  }

  lemma {:induction false} HandleKeepsReceipts(r: Record, p: Params, revision: nat, env: Env)
    requires Handle(r, p, revision, env).Done?
    ensures Handle(r, p, revision, env).record.receipts == r.receipts
  {
    hide ReanchorThreads, RefreshThreads, KeepFiles, KeepHunks, ProgressError, AnchorError, DraftError, FindMessage, FindThreadOf,
      News, FindThread, TotalMessages, UpdatedProgress;
  }

  lemma {:induction false} RememberedStays(r: Record, s: Record, q: Request, answer: Answer)
    requires Evolves(r, s) && Remembers(r, q, answer)
    ensures Remembers(s, q, answer)
  {
    EvolvesKeepsBinding(r, s);
    hide Evolves;
    FindReceiptKept(r.receipts, s.receipts, q.mutationId);
    ReceiptResultKept(r, s, r.receipts[FindReceipt(r.receipts, q.mutationId)]);
  }

  lemma {:induction false} RememberedReplays(store: Store, q: Request, answer: Answer, env: Env)
    requires q.reviewId in store && LoadError(store, q.reviewId).None?
    requires Bounded(q.mutationId, 256) && Remembers(store[q.reviewId], q, answer)
    ensures Call(store, q, env) == (store, Ok(answer))
  {
    hide Handle, LoadError, Bounded, ReceiptResult;
    assert store[q.reviewId := store[q.reviewId]] == store;
  }

  lemma {:induction false} Loads(store: Store, id: string)
    requires StoreInv(store) && id in store
    ensures LoadError(store, id).None? && Inv(store[id])
  {
  }

  // What an accepted call leaves behind for good.
  lemma {:induction false} RememberedAfterRun(store: Store, q: Request, env: Env, fate: Fate, later: seq<Event>)
    requires StoreInv(store) && FreshEvent(store, Called(q, env, fate)) && !fate.LostBeforePersist?
    requires Call(store, q, env).1.Ok?
    requires FreshRun(Step(store, Called(q, env, fate)), later)
    ensures var now := Run(Step(store, Called(q, env, fate)), later);
            && StoreInv(now) && q.reviewId in now && Bounded(q.mutationId, 256)
            && Remembers(now[q.reviewId], q, Call(store, q, env).1.value)
  {
    hide Inv, Evolves, Mutate, FreshIds, Run, FreshRun, Remembers, Bounded, ValidRecord;
    var first := Step(store, Called(q, env, fate));
    var now := Run(first, later);
    var r := store[q.reviewId];
    StepKeeps(store, Called(q, env, fate));
    RunKeeps(first, later);
    AcceptedIsRemembered(r, q, env);
    RememberedStays(first[q.reviewId], now[q.reviewId], q, Mutate(r, q, env).1.value);
  }

  // Once a request was accepted, sending it again after any run gives the first reply
  // and changes nothing, whether or not the first reply was lost.
  lemma {:induction false} ExactlyOnce(store: Store, q: Request, env: Env, fate: Fate, later: seq<Event>, env': Env)
    requires StoreInv(store) && FreshEvent(store, Called(q, env, fate)) && !fate.LostBeforePersist?
    requires Call(store, q, env).1.Ok?
    requires FreshRun(Step(store, Called(q, env, fate)), later)
    ensures var now := Run(Step(store, Called(q, env, fate)), later);
            Call(now, q, env') == (now, Call(store, q, env).1)
  {
    hide StoreInv, Call, FreshEvent, FreshRun, Run, Step, Remembers, LoadError, Bounded;
    var now := Run(Step(store, Called(q, env, fate)), later);
    RememberedAfterRun(store, q, env, fate, later);
    Loads(now, q.reviewId);
    RememberedReplays(now, q, Call(store, q, env).1.value, env');
  }

  // The same for a refresh whose adapter would by now read other patch bytes.
  lemma {:induction false} ReconcileOnce(store: Store, q: Request, env: Env, fate: Fate, later: seq<Event>, patch: Str)
    requires StoreInv(store) && FreshEvent(store, Called(q, env, fate)) && !fate.LostBeforePersist?
    requires q.params.Refresh? && Call(store, q, env).1.Ok?
    requires FreshRun(Step(store, Called(q, env, fate)), later)
    ensures var again := q.(params := q.params.(patch := patch));
            Reconcile(Run(Step(store, Called(q, env, fate)), later), ClientPart(again)) == Ok(Some(Call(store, q, env).1.value))
  {
    hide StoreInv, Call, FreshEvent, FreshRun, Run, Step, LoadError, Bounded, ReceiptResult;
    var now := Run(Step(store, Called(q, env, fate)), later);
    RememberedAfterRun(store, q, env, fate, later);
    Loads(now, q.reviewId);
    KeptReceiptOk(now[q.reviewId], FindReceipt(now[q.reviewId].receipts, q.mutationId));
    hide Inv;
  }

  lemma {:induction false} KeptReceiptOk(r: Record, i: nat)
    requires Inv(r) && i < |r.receipts|
    ensures ReceiptOk(r, r.receipts[i])
  {
  }

  // A mutation id that was accepted is refused for any other request, for good.
  lemma {:induction false} OtherRequestConflicts(store: Store, q: Request, env: Env, fate: Fate, later: seq<Event>, other: Request, env': Env)
    requires StoreInv(store) && FreshEvent(store, Called(q, env, fate)) && !fate.LostBeforePersist? && Call(store, q, env).1.Ok?
    requires FreshRun(Step(store, Called(q, env, fate)), later)
    requires other != q && other.mutationId == q.mutationId && other.reviewId == q.reviewId
    ensures var now := Run(Step(store, Called(q, env, fate)), later);
            Call(now, other, env') == (now, Err(Conflict(MutationConflict)))
  {
    hide StoreInv, Call, FreshEvent, FreshRun, Run, Step, LoadError, Bounded;
    var now := Run(Step(store, Called(q, env, fate)), later);
    RememberedAfterRun(store, q, env, fate, later);
    Loads(now, q.reviewId);
    hide Inv, Remembers;
    OtherConflicts(now, q, Call(store, q, env).1.value, other, env');
  }

  lemma {:induction false} OtherConflicts(store: Store, q: Request, answer: Answer, other: Request, env: Env)
    requires q.reviewId in store && LoadError(store, q.reviewId).None?
    requires Bounded(q.mutationId, 256) && Remembers(store[q.reviewId], q, answer)
    requires other != q && other.mutationId == q.mutationId && other.reviewId == q.reviewId
    ensures Call(store, other, env) == (store, Err(Conflict(MutationConflict)))
  {
    hide Handle, LoadError, Bounded, ReceiptResult;
    assert store[q.reviewId := store[q.reviewId]] == store;
  }

  predicate Took(before: Store, after: Store, id: string) {
    id in before && id in after && before[id] != after[id]
  }

  // How many steps of the run changed review `id` under this mutation id.
  ghost function Effects(store: Store, es: seq<Event>, id: string, mutationId: string): nat
    decreases |es|
  {
    if es == [] then 0
    else
      var next := Step(store, es[0]);
      Effects(next, es[1..], id, mutationId)
      + (if es[0].Called? && es[0].request.reviewId == id && es[0].request.mutationId == mutationId && Took(store, next, id) then 1 else 0)
  }

  predicate HasReceipt(rec: Record, mutationId: string) {
    FindReceipt(rec.receipts, mutationId) < |rec.receipts|
  }

  lemma {:induction false} StepReceipts(store: Store, e: Event, id: string, mutationId: string)
    requires StoreInv(store) && FreshEvent(store, e) && id in store && id in Step(store, e)
    ensures var took := e.Called? && e.request.reviewId == id && e.request.mutationId == mutationId && Took(store, Step(store, e), id);
            && (took ==> !HasReceipt(store[id], mutationId))
            && (HasReceipt(Step(store, e)[id], mutationId) <==> HasReceipt(store[id], mutationId) || took)
  {
    hide Inv, ValidRecord, FreshIds, Mutate;
    var next := Step(store, e);
    var r, s := store[id], next[id];
    if HasReceipt(r, mutationId) {
      StepKeeps(store, e);
      EvolvesKeepsBinding(r, s);
      FindReceiptKept(r.receipts, s.receipts, mutationId);
    }
    if e.Called? && e.request.reviewId == id && s != r { MutateReceipt(r, e.request, e.env, mutationId); }
  }

  // A mutation that changes the record appends its own receipt, under an unused id.
  lemma {:induction false} MutateReceipt(r: Record, q: Request, env: Env, mutationId: string)
    requires Mutate(r, q, env).0 != r
    ensures !HasReceipt(r, q.mutationId)
    ensures HasReceipt(Mutate(r, q, env).0, mutationId) <==> HasReceipt(r, mutationId) || mutationId == q.mutationId
  {
    hide Handle, ValidRecord, Bounded, ReceiptResult;
    var s := Mutate(r, q, env).0;
    HandleKeepsReceipts(r, q.params, r.revision + 1, env);
    var added := s.receipts[|r.receipts|];
    assert s.receipts == r.receipts + [added] && added.mutationId == q.mutationId;
    FindAppended(r.receipts, added);
    if HasReceipt(r, mutationId) { FindReceiptKept(r.receipts, s.receipts, mutationId); }
    if mutationId != q.mutationId && HasReceipt(s, mutationId) {
      var i := FindReceipt(s.receipts, mutationId);
      assert i < |r.receipts| && r.receipts[i] == s.receipts[i];
    }
  }

  // In any run a mutation id takes effect on a review at most once, and exactly once
  // when the record ends up with its receipt and did not start with it.
  lemma {:induction false} AtMostOneEffect(store: Store, es: seq<Event>, id: string, mutationId: string)
    requires StoreInv(store) && FreshRun(store, es) && id in store
    ensures id in Run(store, es)
    ensures Effects(store, es, id, mutationId)
            == (if HasReceipt(Run(store, es)[id], mutationId) && !HasReceipt(store[id], mutationId) then 1 else 0)
    ensures HasReceipt(store[id], mutationId) ==> HasReceipt(Run(store, es)[id], mutationId)
    decreases |es|
  {
    hide StoreInv, Step, FreshEvent, Evolves, HasReceipt;
    if es != [] {
      StepKeeps(store, es[0]);
      StepReceipts(store, es[0], id, mutationId);
      AtMostOneEffect(Step(store, es[0]), es[1..], id, mutationId);
    }
  }

  // ---- message versions ----

  // A version, once it exists, has one content for every reader from then on.
  lemma {:induction false} VersionsImmutable(store: Store, es: seq<Event>, id: string, m: Message, n: Message)
    requires StoreInv(store) && FreshRun(store, es) && id in store
    requires Version(store[id], m) && m.id == n.id && m.revision == n.revision
    ensures id in Run(store, es) && (Version(Run(store, es)[id], n) ==> m == n)
  {
    RunKeeps(store, es);
    if Version(Run(store, es)[id], n) {
      Loads(store, id);
      hide StoreInv, FreshRun, Run, ValidRecord, Core, GapFree, Version, ReceiptOk;
      assert Version(store[id], n);
    }
  }

  // ---- submission completeness ----

  predicate AllSent(r: Record) {
    forall i, a :: 0 <= i < |r.threads| && 0 <= a < |r.threads[i].messages| && LiveHuman(r.threads[i].messages[a]) ==>
      Sent(r.submissions, r.threads[i].messages[a].id, r.threads[i].messages[a].revision)
  }

  // A submit without a selection is accepted exactly when there is room and something unsent.
  lemma {:induction false} SubmitAccepted(r: Record, revision: nat, env: Env)
    ensures DoSubmit(r, None, revision, env).Done? <==> |r.submissions| < MAX_FEEDBACK_SUBMISSIONS && !AllSent(r)
  {
    var news := News(r.threads, None, r.submissions);
    if news != [] {
      assert news[0] in news;
      var i :| 0 <= i < |r.threads| && r.threads[i] == news[0];
      assert HasNews(r.submissions, r.threads[i]);
    }
    if !AllSent(r) {
      var i, a :| 0 <= i < |r.threads| && 0 <= a < |r.threads[i].messages| && LiveHuman(r.threads[i].messages[a])
                  && !Sent(r.submissions, r.threads[i].messages[a].id, r.threads[i].messages[a].revision);
      assert HasNews(r.submissions, r.threads[i]);
      assert r.threads[i] in news;
    }
  }

  // Afterwards everything is sent, and a second such submit is refused.
  lemma {:induction false} SubmitCompletes(r: Record, revision: nat, env: Env, revision': nat, env': Env)
    requires DoSubmit(r, None, revision, env).Done?
    ensures var s := DoSubmit(r, None, revision, env).record;
            AllSent(s) && DoSubmit(s, None, revision', env').Refused?
  {
    var s := DoSubmit(r, None, revision, env).record;
    var n := |r.submissions|;
    forall i, a | 0 <= i < |s.threads| && 0 <= a < |s.threads[i].messages| && LiveHuman(s.threads[i].messages[a])
      ensures Sent(s.submissions, s.threads[i].messages[a].id, s.threads[i].messages[a].revision)
    {
      var m := s.threads[i].messages[a];
      if Sent(r.submissions, m.id, m.revision) {
        var k :| 0 <= k < n && ThreadsCarry(r.submissions[k].threads, m.id, m.revision);
        assert s.submissions[k] == r.submissions[k];
      } else {
        assert HasNews(r.submissions, r.threads[i]);
        assert r.threads[i] in s.submissions[n].threads;
        var j :| 0 <= j < |s.submissions[n].threads| && s.submissions[n].threads[j] == r.threads[i];
        assert Carries(s.submissions[n].threads[j].messages, m.id, m.revision);
        assert ThreadsCarry(s.submissions[n].threads, m.id, m.revision);
      }
    }
    SubmitAccepted(s, revision', env');
  }

  lemma {:induction false} SentIsOld(r: Record, id: string, revision: nat)
    requires Inv(r) && Sent(r.submissions, id, revision)
    ensures revision <= r.revision
  {
    var b :| 0 <= b < |r.submissions| && ThreadsCarry(r.submissions[b].threads, id, revision);
    var j :| 0 <= j < |r.submissions[b].threads| && Carries(r.submissions[b].threads[j].messages, id, revision);
    var a :| 0 <= a < |r.submissions[b].threads[j].messages| && r.submissions[b].threads[j].messages[a].revision == revision;
    var m := r.submissions[b].threads[j].messages[a];
    assert InThreads(r.submissions[b].threads, m) && Version(r, m);
  }

  // A successful edit leaves a version no submission carries, so the next submit has work.
  lemma {:induction false} EditReopensSubmit(r: Record, messageId: string, body: string, env: Env, revision': nat)
    requires Inv(r) && DoEdit(r, messageId, body, r.revision + 1).Done?
    ensures var s := DoEdit(r, messageId, body, r.revision + 1).record;
            && !AllSent(s)
            && (DoSubmit(s, None, revision', env).Done? <==> |s.submissions| < MAX_FEEDBACK_SUBMISSIONS)
  {
    var s := DoEdit(r, messageId, body, r.revision + 1).record;
    EditIsNews(r, messageId, body);
    hide Inv, Sent, DoEdit, DoSubmit, AllSent;
    SubmitAccepted(s, revision', env);
  }

  lemma {:induction false} EditIsNews(r: Record, messageId: string, body: string)
    requires Inv(r) && DoEdit(r, messageId, body, r.revision + 1).Done?
    ensures !AllSent(DoEdit(r, messageId, body, r.revision + 1).record)
    ensures DoEdit(r, messageId, body, r.revision + 1).record.submissions == r.submissions
  {
    hide Inv, Sent, Bounded, FindThreadOf, FindMessage;
    var s := DoEdit(r, messageId, body, r.revision + 1).record;
    var i := FindThreadOf(r.threads, messageId);
    var k := FindMessage(r.threads[i].messages, messageId);
    var m := s.threads[i].messages[k];
    assert LiveHuman(m);
    NotYetSent(r, m);
  }

  lemma {:induction false} NotYetSent(r: Record, m: Message)
    requires Inv(r) && m.revision == r.revision + 1
    ensures !Sent(r.submissions, m.id, m.revision)
  {
    hide Inv, Sent;
    if Sent(r.submissions, m.id, m.revision) { SentIsOld(r, m.id, m.revision); }
  }

  // ---- delivery ----

  // The run contains a persisted, accepted acknowledgement of this batch by this consumer.
  ghost predicate AckedIn(store: Store, es: seq<Event>, id: string, submissionId: string, consumer: string)
    decreases |es|
  {
    if es == [] then false
    else
      || (es[0].Called? && AckEvent(es[0], id, submissionId, consumer) && Call(store, es[0].request, es[0].env).1.Ok?)
      || AckedIn(Step(store, es[0]), es[1..], id, submissionId, consumer)
  }

  predicate AckEvent(e: Event, id: string, submissionId: string, consumer: string) {
    && e.Called? && !e.fate.LostBeforePersist? && e.request.reviewId == id
    && e.request.params.Acknowledge?
    && e.request.params.submissionId == submissionId && Consumer(e.request.params.consumer) == consumer
  }

  // The accepted acknowledgement of submission `k` by `consumer`.
  predicate AcksAt(r: Record, q: Request, k: nat, consumer: string)
    requires k < |r.submissions|
  {
    && q.params.Acknowledge? && q.params.submissionId == r.submissions[k].id
    && Consumer(q.params.consumer) == consumer
  }

  predicate Runs(r: Record, q: Request, env: Env) {
    Precheck(r, q).None? && Handle(r, q.params, r.revision + 1, env).Done?
  }

  lemma {:induction false} MutateAcksRun(r: Record, q: Request, env: Env, k: nat, consumer: string)
    requires Inv(r) && FreshIds(r, env) && k < |r.submissions| && Runs(r, q, env)
    ensures var (s, reply) := Mutate(r, q, env);
            && reply.Ok? && k < |s.submissions|
            && (consumer in s.submissions[k].acknowledgedBy <==> consumer in r.submissions[k].acknowledgedBy || AcksAt(r, q, k, consumer))
  {
    hide Inv, Mutate, Handle, Precheck, FreshIds, Evolves;
    DistinctSubmission(r, k);
    MutateKeeps(r, q, env);
    HandleAcks(r, q.params, r.revision + 1, env);
    MutateSubmissions(r, q, env, k);
  }

  lemma {:induction false} MutateAcksStill(r: Record, q: Request, env: Env, k: nat, consumer: string)
    requires Inv(r) && FreshIds(r, env) && k < |r.submissions| && !Runs(r, q, env)
    ensures Mutate(r, q, env).0 == r
    ensures Mutate(r, q, env).1.Ok? && AcksAt(r, q, k, consumer) ==> consumer in r.submissions[k].acknowledgedBy
  {
    hide Inv, Handle, FreshIds, Bounded, Evolves;
    DistinctSubmission(r, k);
    MutateKeeps(r, q, env);
    if Mutate(r, q, env).1.Ok? { KeptReceiptOk(r, FindReceipt(r.receipts, q.mutationId)); }
  }

  lemma {:induction false} MutateAcks(r: Record, q: Request, env: Env, k: nat, consumer: string)
    requires Inv(r) && FreshIds(r, env) && k < |r.submissions|
    ensures var (s, reply) := Mutate(r, q, env);
            && k < |s.submissions|
            && (consumer in s.submissions[k].acknowledgedBy <==>
                  consumer in r.submissions[k].acknowledgedBy || (AcksAt(r, q, k, consumer) && reply.Ok?))
  {
    hide Inv, Mutate, Runs, FreshIds;
    if Runs(r, q, env) { MutateAcksRun(r, q, env, k, consumer); } else { MutateAcksStill(r, q, env, k, consumer); }
  }

  lemma {:induction false} DistinctSubmission(r: Record, k: nat)
    requires Inv(r) && k < |r.submissions|
    ensures FindSubmission(r.submissions, r.submissions[k].id) == k
  {
  }

  lemma {:induction false} MutateSubmissions(r: Record, q: Request, env: Env, k: nat)
    requires Precheck(r, q).None? && Handle(r, q.params, r.revision + 1, env).Done? && Mutate(r, q, env).1.Ok?
    ensures Mutate(r, q, env).0.submissions == Handle(r, q.params, r.revision + 1, env).record.submissions
  {
    hide Precheck, Handle, ValidRecord;
  }

  lemma {:induction false} OpenKeepsRecord(store: Store, args: OpenArgs, uid: string, id: string)
    requires uid !in store && id in store
    ensures var next := OpenOrResume(store, args, uid).0; id in next && next[id] == store[id]
  {
    hide LoadError, OpenError, NewRecord;
  }

  lemma {:induction false} StepAcks(store: Store, e: Event, id: string, k: nat, consumer: string)
    requires StoreInv(store) && FreshEvent(store, e) && id in store && k < |store[id].submissions|
    ensures id in Step(store, e) && k < |Step(store, e)[id].submissions|
    ensures consumer in Step(store, e)[id].submissions[k].acknowledgedBy <==>
              || consumer in store[id].submissions[k].acknowledgedBy
              || (AckEvent(e, id, store[id].submissions[k].id, consumer) && Call(store, e.request, e.env).1.Ok?)
  {
    hide Inv, FreshIds, Mutate, ValidRecord, Evolves, OpenOrResume, LoadError;
    if e.Called? && e.request.reviewId == id {
      Loads(store, id);
      MutateAcks(store[id], e.request, e.env, k, consumer);
    }
    if e.Opened? { OpenKeepsRecord(store, e.args, e.uid, id); }
  }

  // A batch stays on a consumer's page, its content unchanged, through any run and
  // whatever other consumers do, until that consumer acknowledges it; then it is gone for good.
  lemma {:induction false} DeliveredUntilAcknowledged(store: Store, es: seq<Event>, id: string, k: nat, consumer: string)
    requires StoreInv(store) && FreshRun(store, es) && id in store && k < |store[id].submissions|
    ensures id in Run(store, es) && k < |Run(store, es)[id].submissions|
    ensures SameSubmission(store[id].submissions[k], Run(store, es)[id].submissions[k])
    ensures consumer in Run(store, es)[id].submissions[k].acknowledgedBy <==>
              || consumer in store[id].submissions[k].acknowledgedBy
              || AckedIn(store, es, id, store[id].submissions[k].id, consumer)
    decreases |es|
  {
    hide StoreInv, Step, FreshEvent, Evolves, Call;
    if es != [] {
      var next := Step(store, es[0]);
      StepKeeps(store, es[0]);
      StepAcks(store, es[0], id, k, consumer);
      SubmissionKept(store[id], next[id], k);
      DeliveredUntilAcknowledged(next, es[1..], id, k, consumer);
    }
  }

  lemma {:induction false} SubmissionKept(r: Record, s: Record, k: nat)
    requires Evolves(r, s) && k < |r.submissions|
    ensures k < |s.submissions| && SameSubmission(r.submissions[k], s.submissions[k])
  {
  }

  // The same, as the consumer's feedback page shows it.
  lemma {:induction false} DeliveredOnPage(store: Store, es: seq<Event>, id: string, k: nat, consumer: Option<string>)
    requires StoreInv(store) && FreshRun(store, es) && id in store && k < |store[id].submissions|
    requires Bounded(Consumer(consumer), 256) && Consumer(consumer) !in store[id].submissions[k].acknowledgedBy
    ensures id in Run(store, es)
    ensures var page := ReadFeedback(Run(store, es)[id], consumer);
            && page.Ok?
            && (AckedIn(store, es, id, store[id].submissions[k].id, Consumer(consumer)) ==>
                  forall s :: s in page.value.submissions ==> s.id != store[id].submissions[k].id)
            && (!AckedIn(store, es, id, store[id].submissions[k].id, Consumer(consumer)) ==>
                  exists s :: s in page.value.submissions && SameSubmission(store[id].submissions[k], s))
  {
    hide Evolves, FreshRun, AckedIn, Run, ReadFeedback, Bounded, Inv;
    var now := Run(store, es);
    RunKeeps(store, es);
    DeliveredUntilAcknowledged(store, es, id, k, Consumer(consumer));
    var r, t := now[id], now[id].submissions[k];
    SnapshotsOf(r);
    FeedbackPageExact(r, consumer);
    forall s | s in r.submissions && s.id == t.id ensures s == t {
      var j :| 0 <= j < |r.submissions| && r.submissions[j] == s;
      DistinctSubmission(r, j);
      DistinctSubmission(r, k);
    }
    assert t in r.submissions;
  }

  lemma {:induction false} SnapshotsOf(r: Record)
    requires Inv(r)
    ensures Snapshots(r.submissions)
  {
  }

  // ---- the change feed ----

  // The states of one review that a client may meet, oldest first.
  ghost predicate Chain(rs: seq<Record>) {
    && (forall i :: 0 <= i < |rs| ==> Inv(rs[i]))
    && forall i :: 0 <= i < |rs| - 1 ==> Evolves(rs[i], rs[i + 1])
  }

  // What a client collects that polls state i with limit `limits[i]` (and skips it when
  // there is none), following the cursor.  None when it is told to start over.
  function Feed(rs: seq<Record>, limits: seq<Option<nat>>, cursor: nat): Option<(seq<Change>, nat)>
    requires |rs| == |limits|
    decreases |rs|
  {
    if rs == [] then Some(([], cursor))
    else if limits[0].None? then Feed(rs[1..], limits[1..], cursor)
    else
      match ReadChanges(rs[0], limits[0], Some(Cursor(rs[0].id, cursor)))
      case Err(_) => None
      case Ok(page) =>
        if page.fullRefresh then None
        else
          match Feed(rs[1..], limits[1..], page.next)
          case None => None
          case Some(rest) => Some((page.changes + rest.0, rest.1))
  }

  // A revision's change is the same entry wherever the log still has it.
  lemma {:induction false} ChangesAgree(r: Record, s: Record, c: Change, d: Change)
    requires Inv(r) && Evolves(r, s) && c in r.changes && d in s.changes && c.revision == d.revision
    ensures c == d
  {
    assert c.revision <= r.revision;
    var i :| 0 <= i < |s.changes| && s.changes[i] == d;
    assert d in r.changes;
    var a :| 0 <= a < |r.changes| && r.changes[a] == c;
    var b :| 0 <= b < |r.changes| && r.changes[b] == d;
    assert a == b;
  }

  lemma {:induction false} ChainEvolves(rs: seq<Record>, i: nat, j: nat)
    requires Chain(rs) && i <= j < |rs|
    ensures Evolves(rs[i], rs[j])
    decreases j - i
  {
    hide Evolves, Inv;
    if i == j {
      EvolvesReflexive(rs[i]);
    } else {
      ChainEvolves(rs, i, j - 1);
      EvolvesTransitive(rs[i], rs[j - 1], rs[j]);
    }
  }

  predicate LoggedIn(rs: seq<Record>, c: Change) {
    exists j :: 0 <= j < |rs| && c in rs[j].changes
  }

  lemma {:induction false} LoggedInTail(rs: seq<Record>, c: Change)
    requires rs != [] && (c in rs[0].changes || LoggedIn(rs[1..], c))
    ensures LoggedIn(rs, c)
  {
    if LoggedIn(rs[1..], c) {
      var j :| 0 <= j < |rs[1..]| && c in rs[1..][j].changes;
      assert c in rs[j + 1].changes;
    }
  }

  lemma {:induction false} PageOf(r: Record, limit: nat, cursor: nat)
    requires Inv(r) && ReadChanges(r, Some(limit), Some(Cursor(r.id, cursor))).Ok?
    requires !ReadChanges(r, Some(limit), Some(Cursor(r.id, cursor))).value.fullRefresh
    ensures var page := ReadChanges(r, Some(limit), Some(Cursor(r.id, cursor))).value;
            && page.next == cursor + |page.changes|
            && forall i :: 0 <= i < |page.changes| ==> page.changes[i] in r.changes && page.changes[i].revision == cursor + 1 + i
  {
    ChangesPageExact(r, limit, cursor);
  }

  lemma {:induction false} FeedInOrder(rs: seq<Record>, limits: seq<Option<nat>>, cursor: nat)
    requires Chain(rs) && |rs| == |limits| && Feed(rs, limits, cursor).Some?
    ensures var (got, end) := Feed(rs, limits, cursor).value;
            && end == cursor + |got|
            && forall i :: 0 <= i < |got| ==> got[i].revision == cursor + 1 + i && LoggedIn(rs, got[i])
    decreases |rs|
  {
    hide Inv, Evolves, ReadChanges, LoggedIn;
    if rs != [] {
      var got := Feed(rs, limits, cursor).value.0;
      if limits[0].None? {
        FeedInOrder(rs[1..], limits[1..], cursor);
        forall i | 0 <= i < |got| ensures LoggedIn(rs, got[i]) { LoggedInTail(rs, got[i]); }
      } else {
        var page := ReadChanges(rs[0], limits[0], Some(Cursor(rs[0].id, cursor))).value;
        PageOf(rs[0], limits[0].value, cursor);
        FeedInOrder(rs[1..], limits[1..], page.next);
        forall i | 0 <= i < |got| ensures got[i].revision == cursor + 1 + i && LoggedIn(rs, got[i]) {
          LoggedInTail(rs, got[i]);
        }
      }
    }
  }

  // Polls at any of the states of a run deliver every change after the starting cursor
  // that any of those states logs, up to the final cursor: each once, in order.
  lemma {:induction false} FeedLosesNothing(rs: seq<Record>, limits: seq<Option<nat>>, cursor: nat, j: nat, c: Change)
    requires Chain(rs) && |rs| == |limits| && Feed(rs, limits, cursor).Some?
    requires j < |rs| && c in rs[j].changes
    ensures var (got, end) := Feed(rs, limits, cursor).value;
            && end == cursor + |got|
            && (forall i :: 0 <= i < |got| ==> got[i].revision == cursor + 1 + i)
            && (cursor < c.revision <= end ==> got[c.revision - cursor - 1] == c)
  {
    hide Inv, Evolves, Feed;
    FeedInOrder(rs, limits, cursor);
    var (got, end) := Feed(rs, limits, cursor).value;
    if cursor < c.revision <= end {
      var d := got[c.revision - cursor - 1];
      var m :| 0 <= m < |rs| && d in rs[m].changes;
      if m <= j {
        ChainEvolves(rs, m, j);
        ChangesAgree(rs[m], rs[j], d, c);
      } else {
        ChainEvolves(rs, j, m);
        ChangesAgree(rs[j], rs[m], c, d);
      }
    }
  }

  // The last state that is polled, and the page the client gets there.
  function LastPoll(limits: seq<Option<nat>>): Option<nat> {
    if limits == [] then None
    else if limits[|limits| - 1].Some? then Some(|limits| - 1)
    else LastPoll(limits[..|limits| - 1])
  }

  function LastPage(rs: seq<Record>, limits: seq<Option<nat>>, cursor: nat): Option<ChangesPage>
    requires |rs| == |limits|
    decreases |rs|
  {
    if rs == [] then None
    else if limits[0].None? then LastPage(rs[1..], limits[1..], cursor)
    else
      match ReadChanges(rs[0], limits[0], Some(Cursor(rs[0].id, cursor)))
      case Err(_) => None
      case Ok(page) =>
        var later := LastPage(rs[1..], limits[1..], page.next);
        if later.Some? then later else Some(page)
  }

  function Polls(limits: seq<Option<nat>>): nat {
    if limits == [] then 0 else (if limits[0].Some? then 1 else 0) + Polls(limits[1..])
  }

  // Where the pages lead: the length of one, and whether more is to come.
  lemma {:induction false} PageReaches(r: Record, limit: nat, cursor: nat)
    requires Inv(r) && ReadChanges(r, Some(limit), Some(Cursor(r.id, cursor))).Ok?
    requires !ReadChanges(r, Some(limit), Some(Cursor(r.id, cursor))).value.fullRefresh
    ensures var page := ReadChanges(r, Some(limit), Some(Cursor(r.id, cursor))).value;
            && page.next <= r.revision && (page.hasMore <==> page.next < r.revision)
            && (page.next == r.revision || |page.changes| >= 1)
  {
    ChangesPageExact(r, limit, cursor);
  }

  lemma {:induction false} LastPollTail(limits: seq<Option<nat>>)
    requires limits != []
    ensures LastPoll(limits) == if LastPoll(limits[1..]).Some? then Some(LastPoll(limits[1..]).value + 1)
                                else if limits[0].Some? then Some(0) else None
    decreases |limits|
  {
    var n := |limits| - 1;
    if limits[n].None? && n > 0 {
      LastPollTail(limits[..n]);
      assert limits[..n][1..] == limits[1..][..n - 1];
    }
  }

  lemma {:induction false} LastPollIs(limits: seq<Option<nat>>)
    ensures LastPoll(limits).Some? ==> LastPoll(limits).value < |limits| && limits[LastPoll(limits).value].Some?
    decreases |limits|
  {
    if limits != [] { LastPollIs(limits[..|limits| - 1]); }
  }

  predicate FeedEnd(rs: seq<Record>, limits: seq<Option<nat>>, cursor: nat, end: nat) {
    && |rs| == |limits|
    && (LastPoll(limits).None? ==> end == cursor && LastPage(rs, limits, cursor).None?)
    && (LastPoll(limits).Some? ==>
          && LastPoll(limits).value < |rs| && LastPage(rs, limits, cursor).Some?
          && end <= rs[LastPoll(limits).value].revision
          && (LastPage(rs, limits, cursor).value.hasMore <==> end < rs[LastPoll(limits).value].revision))
  }

  lemma {:induction false} FeedEnds(rs: seq<Record>, limits: seq<Option<nat>>, cursor: nat)
    requires Chain(rs) && |rs| == |limits| && Feed(rs, limits, cursor).Some?
    ensures FeedEnd(rs, limits, cursor, Feed(rs, limits, cursor).value.1)
    decreases |rs|
  {
    hide Inv, Evolves, ReadChanges, LastPoll;
    if rs == [] {
      LastPollIs(limits);
    } else {
      LastPollTail(limits);
      LastPollIs(limits[1..]);
      if limits[0].None? {
        FeedEnds(rs[1..], limits[1..], cursor);
      } else {
        var page := ReadChanges(rs[0], limits[0], Some(Cursor(rs[0].id, cursor))).value;
        PageReaches(rs[0], limits[0].value, cursor);
        FeedEnds(rs[1..], limits[1..], page.next);
      }
    }
  }

  lemma {:induction false} FeedProgress(rs: seq<Record>, limits: seq<Option<nat>>, cursor: nat)
    requires Chain(rs) && |rs| == |limits| && rs != [] && Feed(rs, limits, cursor).Some?
    ensures var (got, end) := Feed(rs, limits, cursor).value; end >= rs[0].revision || |got| >= Polls(limits)
    decreases |rs|
  {
    hide Inv, ReadChanges, Evolves;
    if |rs| > 1 { RevisionGrows(rs[0], rs[1]); }
    if limits[0].None? {
      if |rs| > 1 { FeedProgress(rs[1..], limits[1..], cursor); }
    } else {
      var page := ReadChanges(rs[0], limits[0], Some(Cursor(rs[0].id, cursor))).value;
      PageReaches(rs[0], limits[0].value, cursor);
      FeedInOrder(rs[1..], limits[1..], page.next);
      if |rs| > 1 { FeedProgress(rs[1..], limits[1..], page.next); }
    }
  }

  lemma {:induction false} RevisionGrows(r: Record, s: Record)
    requires Evolves(r, s)
    ensures r.revision <= s.revision
  {
  }

  // A client whose last page says that nothing is left has every change up to the last
  // state it polled; and each poll brings a change until it has all that the first state
  // logged.
  lemma {:induction false} FeedCatchesUp(rs: seq<Record>, limits: seq<Option<nat>>, cursor: nat)
    requires Chain(rs) && |rs| == |limits| && Feed(rs, limits, cursor).Some? && LastPoll(limits).Some?
    ensures LastPoll(limits).value < |rs| && limits[LastPoll(limits).value].Some? && LastPage(rs, limits, cursor).Some?
    ensures var (got, end) := Feed(rs, limits, cursor).value;
            var last := rs[LastPoll(limits).value].revision;
            && end == cursor + |got| <= last
            && (forall i :: 0 <= i < |got| ==> got[i].revision == cursor + 1 + i)
            && (!LastPage(rs, limits, cursor).value.hasMore <==> end == last)
            && (end >= rs[0].revision || |got| >= Polls(limits))
  {
    hide Chain, Feed, LastPoll, LastPage, Polls;
    FeedInOrder(rs, limits, cursor);
    FeedEnds(rs, limits, cursor);
    LastPollIs(limits);
    FeedProgress(rs, limits, cursor);
  }

  // The states of a review along a run form such a chain.
  ghost function States(store: Store, es: seq<Event>, id: string): seq<Record>
    requires id in store && forall k :: 0 <= k <= |es| ==> id in Run(store, es[..k])
  {
    seq(|es| + 1, k requires 0 <= k <= |es| => Run(store, es[..k])[id])
  }

  lemma {:induction false} RunSplit(store: Store, es: seq<Event>, k: nat)
    requires k < |es| && FreshRun(store, es)
    ensures FreshRun(store, es[..k]) && FreshEvent(Run(store, es[..k]), es[k])
    ensures Run(store, es[..k + 1]) == Step(Run(store, es[..k]), es[k])
    decreases k
  {
    hide FreshEvent, Step;
    if k == 0 {
      assert es[..1][1..] == [];
    } else {
      RunSplit(Step(store, es[0]), es[1..], k - 1);
      assert es[..k][1..] == es[1..][..k - 1] && es[..k + 1][1..] == es[1..][..k];
    }
  }

  lemma {:induction false} StatesChain(store: Store, es: seq<Event>, id: string)
    requires StoreInv(store) && FreshRun(store, es) && id in store
    ensures forall k :: 0 <= k <= |es| ==> id in Run(store, es[..k])
    ensures Chain(States(store, es, id))
  {
    hide Inv, Evolves, FreshEvent, Step, Run, FreshRun;
    forall k | 0 <= k <= |es| ensures id in Run(store, es[..k]) && StoreInv(Run(store, es[..k])) {
      if k < |es| { RunSplit(store, es, k); } else { assert es[..k] == es; }
      RunKeeps(store, es[..k]);
    }
    var rs := States(store, es, id);
    forall i | 0 <= i < |rs| - 1 ensures Evolves(rs[i], rs[i + 1]) {
      RunSplit(store, es, i);
      StepKeeps(Run(store, es[..i]), es[i]);
    }
  }
}
