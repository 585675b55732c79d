// `validate_record` as the source runs it: one pass, with hash sets of the ids seen.
module ReviewValidation {
  import opened ReviewTypes
  import opened ReviewHandlers
  import opened ReviewInvariant

  // ---- messages ----

  function IdSet(messages: seq<Message>): (r: set<string>)
    ensures forall id :: id in r <==> HasId(messages, id)
  {
    set a | 0 <= a < |messages| :: messages[a].id
  }

  // What the inner loop accepts, given the message ids of earlier threads.
  predicate GoodMessages(messages: seq<Message>, revision: nat, seen: set<string>) {
    && (forall a :: 0 <= a < |messages| ==> ValidMessage(messages[a], revision) && messages[a].id !in seen)
    && RepliesBack(messages)
    && DistinctWithin(messages)
  }

  lemma {:induction false} RepliesBackSnoc(ms: seq<Message>, m: Message)
    ensures RepliesBack(ms + [m]) <==> RepliesBack(ms) && (m.replyTo.Some? ==> HasId(ms, m.replyTo.value))
  {
    var ns := ms + [m];
    assert forall a :: 0 <= a < |ms| ==> ns[a] == ms[a];
    assert ns[|ms|] == m;
    if RepliesBack(ns) {
      forall a | 0 <= a < |ms| && ms[a].replyTo.Some? ensures exists b :: 0 <= b < a && ms[b].id == ms[a].replyTo.value {
        var b :| 0 <= b < a && ns[b].id == ns[a].replyTo.value;
        assert ms[b].id == ms[a].replyTo.value;
      }
    }
    if RepliesBack(ms) && (m.replyTo.Some? ==> HasId(ms, m.replyTo.value)) {
      forall a | 0 <= a < |ns| && ns[a].replyTo.Some? ensures exists b :: 0 <= b < a && ns[b].id == ns[a].replyTo.value {
        var b :| 0 <= b < a && ms[b].id == ns[a].replyTo.value;
        assert ns[b].id == ms[b].id;
      }
    }
  }

  lemma {:induction false} GoodMessagesSnoc(ms: seq<Message>, m: Message, revision: nat, seen: set<string>)
    ensures GoodMessages(ms + [m], revision, seen) <==>
              && GoodMessages(ms, revision, seen)
              && ValidMessage(m, revision) && m.id !in seen + IdSet(ms)
              && (m.replyTo.Some? ==> m.replyTo.value in IdSet(ms))
    ensures IdSet(ms + [m]) == IdSet(ms) + {m.id}
  {
    hide ValidMessage, RepliesBack;
    RepliesBackSnoc(ms, m);
    var ns := ms + [m];
    assert forall a :: 0 <= a < |ms| ==> ns[a] == ms[a];
    assert ns[|ms|] == m;
    assert forall id :: HasId(ns, id) <==> HasId(ms, id) || id == m.id;
    assert DistinctWithin(ns) <==> DistinctWithin(ms) && !HasId(ms, m.id);
  }

  lemma {:induction false} GoodMessagesPrefix(ms: seq<Message>, n: nat, revision: nat, seen: set<string>)
    requires n <= |ms| && GoodMessages(ms, revision, seen)
    ensures GoodMessages(ms[..n], revision, seen)
    decreases |ms|
  {
    hide GoodMessages;
    if n < |ms| {
      var last := |ms| - 1;
      assert ms[..last] + [ms[last]] == ms;
      GoodMessagesSnoc(ms[..last], ms[last], revision, seen);
      GoodMessagesPrefix(ms[..last], n, revision, seen);
      assert ms[..last][..n] == ms[..n];
    } else {
      assert ms[..n] == ms;
    }
  }

  // The inner loop of the pass over threads.
  method CheckMessages(messages: seq<Message>, revision: nat, seen: set<string>) returns (ok: bool, all: set<string>)
    ensures ok <==> GoodMessages(messages, revision, seen)
    ensures ok ==> all == seen + IdSet(messages)
  {
    all := seen;
    var ids: set<string> := {};
    for a := 0 to |messages|
      invariant GoodMessages(messages[..a], revision, seen)
      invariant ids == IdSet(messages[..a]) && all == seen + ids
    {
      hide GoodMessages, ValidMessage;
      var m := messages[a];
      assert messages[..a + 1] == messages[..a] + [m];
      GoodMessagesSnoc(messages[..a], m, revision, seen);
      if m.id in all || !ValidMessage(m, revision) || (m.replyTo.Some? && m.replyTo.value !in ids) {
        if GoodMessages(messages, revision, seen) {
          GoodMessagesPrefix(messages, a + 1, revision, seen);
          assert false;
        }
        return false, all;
      }
      ids, all := ids + {m.id}, all + {m.id};
    }
    assert messages[..|messages|] == messages;
    ok := true;
  }

  // ---- threads ----

  predicate ThreadOk(t: Thread, revision: nat, seen: set<string>) {
    ValidEntityId(t.id, ThreadEntity) && t.messages != [] && ValidAnchor(t.anchor) && GoodMessages(t.messages, revision, seen)
  }

  function ThreadIdSet(threads: seq<Thread>): (r: set<string>)
    ensures forall id :: id in r <==> HasThread(threads, id)
  {
    set i | 0 <= i < |threads| :: threads[i].id
  }

  function MessageIdSet(threads: seq<Thread>): (r: set<string>)
    ensures forall id :: id in r <==> HasMessage(threads, id)
  {
    set id | id in MessageIds(threads)
  }

  predicate GoodThreads(threads: seq<Thread>, revision: nat) {
    && DistinctThreads(threads)
    && DistinctMessages(threads)
    && forall i :: 0 <= i < |threads| ==> ValidThread(threads[i], revision)
  }

  lemma {:induction false} DistinctMessagesSnoc(ts: seq<Thread>, t: Thread)
    ensures DistinctMessages(ts + [t]) <==>
              && DistinctMessages(ts) && DistinctWithin(t.messages)
              && forall a :: 0 <= a < |t.messages| ==> t.messages[a].id !in MessageIdSet(ts)
  {
    hide DistinctWithin, MessageIdSet;
    var us := ts + [t];
    assert forall i :: 0 <= i < |ts| ==> us[i] == ts[i];
    assert us[|ts|] == t;
    ApartFromAll(ts, t);
    assert forall i :: 0 <= i < |ts| ==> Apart(ts[i].messages, t.messages) == Apart(t.messages, ts[i].messages);
    hide Apart;
  }

  lemma {:induction false} GoodThreadsSnoc(ts: seq<Thread>, t: Thread, revision: nat)
    ensures GoodThreads(ts + [t], revision) <==>
              && GoodThreads(ts, revision)
              && t.id !in ThreadIdSet(ts) && ThreadOk(t, revision, MessageIdSet(ts))
    ensures ThreadIdSet(ts + [t]) == ThreadIdSet(ts) + {t.id}
    ensures MessageIdSet(ts + [t]) == MessageIdSet(ts) + IdSet(t.messages)
  {
    hide ValidMessage, RepliesBack, ValidEntityId, ValidAnchor, DistinctMessages, DistinctWithin;
    var us := ts + [t];
    assert forall i :: 0 <= i < |ts| ==> us[i] == ts[i];
    assert us[|ts|] == t;
    assert forall id :: HasThread(us, id) <==> HasThread(ts, id) || id == t.id;
    assert forall id :: HasMessage(us, id) <==> HasMessage(ts, id) || HasId(t.messages, id);
    DistinctMessagesSnoc(ts, t);
  }

  lemma {:induction false} ApartFromAll(ts: seq<Thread>, t: Thread)
    ensures (forall i :: 0 <= i < |ts| ==> Apart(ts[i].messages, t.messages))
            <==> forall a :: 0 <= a < |t.messages| ==> t.messages[a].id !in MessageIdSet(ts)
  {
    if forall a :: 0 <= a < |t.messages| ==> t.messages[a].id !in MessageIdSet(ts) {
      forall i, b, a | 0 <= i < |ts| && 0 <= b < |ts[i].messages| && 0 <= a < |t.messages|
        ensures ts[i].messages[b].id != t.messages[a].id
      {
        assert !HasId(ts[i].messages, t.messages[a].id);
      }
    }
    if forall i :: 0 <= i < |ts| ==> Apart(ts[i].messages, t.messages) {
      forall a, i | 0 <= a < |t.messages| && 0 <= i < |ts| ensures !HasId(ts[i].messages, t.messages[a].id) {
        assert Apart(ts[i].messages, t.messages);
      }
    }
  }

  lemma {:induction false} GoodThreadsPrefix(ts: seq<Thread>, n: nat, revision: nat)
    requires n <= |ts| && GoodThreads(ts, revision)
    ensures GoodThreads(ts[..n], revision)
  {
  }

  method CheckThreads(threads: seq<Thread>, revision: nat) returns (ok: bool, ids: set<string>, all: set<string>)
    ensures ok <==> GoodThreads(threads, revision)
    ensures ok ==> ids == ThreadIdSet(threads) && all == MessageIdSet(threads)
  {
    ids, all := {}, {};
    for i := 0 to |threads|
      invariant GoodThreads(threads[..i], revision)
      invariant ids == ThreadIdSet(threads[..i]) && all == MessageIdSet(threads[..i])
    {
      hide GoodThreads, GoodMessages, ValidAnchor, ValidEntityId;
      var t := threads[i];
      assert threads[..i + 1] == threads[..i] + [t];
      GoodThreadsSnoc(threads[..i], t, revision);
      var good, all' := CheckMessages(t.messages, revision, all);
      if t.id in ids || t.messages == [] || !ValidEntityId(t.id, ThreadEntity) || !ValidAnchor(t.anchor) || !good {
        if GoodThreads(threads, revision) {
          GoodThreadsPrefix(threads, i + 1, revision);
          assert false;
        }
        return false, ids, all;
      }
      ids, all := ids + {t.id}, all';
    }
    assert threads[..|threads|] == threads;
    ok := true;
  }

  // ---- the rest of the record ----

  method CheckSubmissions(r: Record, ids: set<string>, all: set<string>) returns (ok: bool)
    requires ids == ThreadIdSet(r.threads) && all == MessageIdSet(r.threads) && |r.submissions| <= MAX_FEEDBACK_SUBMISSIONS
    ensures ok <==> ValidSubmissions(r.submissions, r.threads, r.generation, r.revision)
  {
    var seen: set<string> := {};
    for i := 0 to |r.submissions|
      invariant forall k :: 0 <= k < i ==> ValidSubmission(r.submissions[k], r.threads, r.generation, r.revision)
      invariant seen == set k | 0 <= k < i :: r.submissions[k].id
      invariant forall k, l :: 0 <= k < l < i ==> r.submissions[k].id != r.submissions[l].id
    {
      hide ValidEntityId, HasThread, HasMessage;
      var s := r.submissions[i];
      if s.id in seen || !ValidEntityId(s.id, SubmissionEntity) || s.generation == 0 || s.generation > r.generation
         || s.revision > r.revision || (exists id :: id in s.threadIds && id !in ids) || (exists id :: id in s.messageIds && id !in all)
         || |s.acknowledgedBy| > MAX_CONSUMERS {
        return false;
      }
      seen := seen + {s.id};
    }
    ok := true;
  }

  method CheckChanges(changes: seq<Change>, generation: nat, revision: nat) returns (ok: bool)
    requires |changes| <= MAX_REVIEW_CHANGES
    ensures ok <==> ValidChanges(changes, generation, revision)
  {
    var previous := 0;
    for i := 0 to |changes|
      invariant previous == if i == 0 then 0 else changes[i - 1].revision
      invariant forall k :: 0 <= k < i ==> 0 < changes[k].revision <= revision && 0 < changes[k].generation <= generation
      invariant forall k, l :: 0 <= k < l < i ==> changes[k].revision < changes[l].revision
    {
      var c := changes[i];
      if c.revision <= previous || c.revision > revision || c.generation == 0 || c.generation > generation {
        return false;
      }
      previous := c.revision;
    }
    ok := true;
  }

  method CheckReceipts(receipts: seq<Receipt>) returns (ok: bool)
    requires |receipts| <= MAX_MUTATION_RECEIPTS
    ensures ok <==> ValidReceipts(receipts)
  {
    var seen: set<string> := {};
    for i := 0 to |receipts|
      invariant forall k :: 0 <= k < i ==> Bounded(receipts[k].mutationId, 256)
      invariant seen == set k | 0 <= k < i :: receipts[k].mutationId
      invariant forall k, l :: 0 <= k < l < i ==> receipts[k].mutationId != receipts[l].mutationId
    {
      hide Bounded;
      if !Bounded(receipts[i].mutationId, 256) || receipts[i].mutationId in seen {
        return false;
      }
      seen := seen + {receipts[i].mutationId};
    }
    ok := true;
  }

  method CheckProgress(p: Progress) returns (ok: bool)
    requires |p.files| <= MAX_REVIEWED_FILES && |p.hunks| <= MAX_REVIEWED_HUNKS
    ensures ok <==> ValidProgress(p)
  {
    for i := 0 to |p.files|
      invariant forall k :: 0 <= k < i ==> ValidFile(p.files[k])
    {
      hide ValidFile;
      if !ValidFile(p.files[i]) { return false; }
    }
    for i := 0 to |p.hunks|
      invariant forall k :: 0 <= k < i ==> ValidFile(p.hunks[k].0) && 0 < p.hunks[k].1
    {
      hide ValidFile;
      if !ValidFile(p.hunks[i].0) || p.hunks[i].1 == 0 { return false; }
    }
    ok := true;
  }

  method ValidateRecord(r: Record) returns (ok: bool)
    ensures ok <==> ValidRecord(r)
  {
    hide ValidProgress, ValidReceipts, ValidChanges, ValidSubmissions, ValidHeader, DistinctThreads, DistinctMessages, ValidThread;
    if !ValidHeader(r) { return false; }
    if |r.threads| > MAX_REVIEW_THREADS || TotalMessages(r.threads) > MAX_REVIEW_MESSAGES { return false; }
    if |r.changes| > MAX_REVIEW_CHANGES { TooMany(r); return false; }
    if |r.receipts| > MAX_MUTATION_RECEIPTS { TooMany(r); return false; }
    if |r.submissions| > MAX_FEEDBACK_SUBMISSIONS { TooMany(r); return false; }
    var good, ids, all := CheckThreads(r.threads, r.revision);
    if !good { return false; }
    good := CheckSubmissions(r, ids, all);
    if !good { return false; }
    good := CheckChanges(r.changes, r.generation, r.revision);
    if !good { return false; }
    good := CheckReceipts(r.receipts);
    if !good { return false; }
    if |r.progress.files| > MAX_REVIEWED_FILES || |r.progress.hunks| > MAX_REVIEWED_HUNKS { TooMany(r); return false; }
    ok := CheckProgress(r.progress);
  }

  lemma {:induction false} TooMany(r: Record)
    requires |r.changes| > MAX_REVIEW_CHANGES || |r.receipts| > MAX_MUTATION_RECEIPTS || |r.submissions| > MAX_FEEDBACK_SUBMISSIONS
             || |r.progress.files| > MAX_REVIEWED_FILES || |r.progress.hunks| > MAX_REVIEWED_HUNKS
    ensures !ValidRecord(r)
  {
    hide ValidThreads, ValidHeader;
  }
}
