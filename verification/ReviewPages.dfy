// The read side: bounded pages of the patch, of the change log and of feedback.
module ReviewPages {
  import opened Wrappers
  import opened Utf8
  import opened ReviewTypes
  import opened ReviewHandlers
  import opened ReviewInvariant

  // ---- review.patch ----

  const MAX_PAGE_BYTES := 256 * 1024
  const DEFAULT_PAGE_BYTES := 64 * 1024

  datatype PatchPage = PatchPage(patch: seq<Byte>, totalBytes: nat, nextOffset: Option<nat>)

  // The last boundary at or before `end`, not before `start`.
  function LastBoundary(patch: seq<Byte>, start: nat, end: nat): (r: nat)
    requires start <= end <= |patch|
    ensures start <= r <= end
    ensures r == start || Boundary(patch, r)
    ensures forall k :: r < k <= end ==> !Boundary(patch, k)
    decreases end
  {
    if end <= start || Boundary(patch, end) then end else LastBoundary(patch, start, end - 1)
  }

  function ReadPatch(patch: Str, offset: Option<nat>, maxBytes: Option<nat>): Result<PatchPage, Error> {
    var start := if offset.Some? then offset.value else 0;
    var limit := if maxBytes.Some? then maxBytes.value else DEFAULT_PAGE_BYTES;
    if limit == 0 || limit > MAX_PAGE_BYTES then Err(Invalid(InvalidLimit))
    else if start > |patch| || !Boundary(patch, start) then Err(Invalid(InvalidCursor))
    else
      var end := LastBoundary(patch, start, if start + limit < |patch| then start + limit else |patch|);
      if end == start && start < |patch| then Err(Invalid(InvalidLimit))
      else Ok(PatchPage(patch[start..end], |patch|, if end < |patch| then Some(end) else None))
  }

  // Four bytes always hold the next character.
  lemma {:induction false} NextBoundary(s: seq<Byte>, i: nat)
    requires ValidUtf8(s) && i < |s| && Boundary(s, i)
    ensures exists k :: i < k <= i + 4 && k <= |s| && Boundary(s, k)
  {
    CutAtBoundary(s, i);
    var c, t := Uncons(s[i..]);
    var k := i + |c|;
    if k < |s| {
      assert t == s[k..] && t[0] == s[k];
      assert 0 < CharLength(t) && !Continuation(t[0]);
    }
    assert Boundary(s, k);
  }

  lemma {:induction false} TailIsValid(s: seq<Byte>, start: nat, t: seq<Byte>)
    requires ValidUtf8(s) && start <= |s| && Boundary(s, start) && t == s[start..]
    ensures ValidUtf8(t)
  {
    CutAtBoundary(s, start);
  }

  // A slice between boundaries is text.
  lemma {:induction false} SliceIsValid(s: seq<Byte>, start: nat, end: nat)
    requires ValidUtf8(s) && start <= end <= |s| && Boundary(s, start) && Boundary(s, end)
    ensures ValidUtf8(s[start..end])
  {
    CutAtBoundary(s, end);
    TailIsValid(s[..end], start, s[start..end]);
  }

  function PageEnd(patch: Str, start: nat, limit: nat): nat
    requires start <= |patch|
  {
    LastBoundary(patch, start, if start + limit < |patch| then start + limit else |patch|)
  }

  // A page is exactly the text between two character boundaries; it is refused only
  // for a bad limit, a bad offset, or a limit smaller than the next character.
  lemma {:induction false} PatchPageExact(patch: Str, start: nat, limit: nat)
    ensures var r := ReadPatch(patch, Some(start), Some(limit));
            && (r.Ok? <==> 0 < limit <= MAX_PAGE_BYTES && start <= |patch| && Boundary(patch, start)
                           && (start == |patch| || exists k :: start < k <= start + limit && k <= |patch| && Boundary(patch, k)))
            && (r.Ok? ==>
                  var end := if r.value.nextOffset.Some? then r.value.nextOffset.value else |patch|;
                  && start <= end <= |patch| && (start < |patch| ==> start < end)
                  && r.value.patch == patch[start..end] && |r.value.patch| <= limit
                  && Boundary(patch, end) && ValidUtf8(r.value.patch)
                  && (r.value.nextOffset.Some? ==> end < |patch|))
  {
    hide ValidUtf8, Continuation;
    if ReadPatch(patch, Some(start), Some(limit)).Ok? {
      var end := PageEnd(patch, start, limit);
      assert Boundary(patch, end);
      SliceIsValid(patch, start, end);
    }
  }

  // Following `next_offset` until there is none.
  function AllPages(patch: Str, start: nat, limit: nat): (r: Option<seq<Byte>>)
    decreases if start < |patch| then |patch| - start else 0, if start <= |patch| then 0 else 1
  {
    match ReadPatch(patch, Some(start), Some(limit))
    case Err(_) => None
    case Ok(page) =>
      if page.nextOffset.None? then Some(page.patch)
      else
        var rest := AllPages(patch, page.nextOffset.value, limit);
        if rest.None? then None else Some(page.patch + rest.value)
  }

  // Paging is lossless for every limit that holds any character.
  lemma {:induction false} PagesConcatenate(patch: Str, start: nat, limit: nat)
    requires 4 <= limit <= MAX_PAGE_BYTES && start <= |patch| && Boundary(patch, start)
    ensures AllPages(patch, start, limit) == Some(patch[start..])
    decreases |patch| - start
  {
    hide ReadPatch, ValidUtf8, LastBoundary;
    if start < |patch| { NextBoundary(patch, start); }
    PatchPageExact(patch, start, limit);
    var page := ReadPatch(patch, Some(start), Some(limit)).value;
    if page.nextOffset.Some? {
      var end := page.nextOffset.value;
      PagesConcatenate(patch, end, limit);
      assert patch[start..end] + patch[end..] == patch[start..];
    } else {
      assert page.patch == patch[start..|patch|] == patch[start..];
    }
  }

  // ---- review.changes ----

  datatype ChangesPage = ChangesPage(changes: seq<Change>, next: nat, hasMore: bool, fullRefresh: bool)

  datatype Cursor = Cursor(reviewId: string, revision: nat)

  function After(changes: seq<Change>, after: nat): (r: seq<Change>) {
    if changes == [] then []
    else if changes[0].revision > after then [changes[0]] + After(changes[1..], after)
    else After(changes[1..], after)
  }

  function ReadChanges(rec: Record, limitParam: Option<nat>, cursor: Option<Cursor>): Result<ChangesPage, Error> {
    var limit := if limitParam.Some? then limitParam.value else 100;
    if limit == 0 || limit > MAX_REVIEW_CHANGES then Err(Invalid(InvalidLimit))
    else if cursor.Some? && cursor.value.reviewId != rec.id then Err(Invalid(InvalidCursor))
    else
      var after := if cursor.Some? then cursor.value.revision else 0;
      if after > rec.revision then Err(Invalid(InvalidCursor))
      else
        var floor := if rec.changes == [] then rec.revision else if rec.changes[0].revision == 0 then 0 else rec.changes[0].revision - 1;
        if after < floor then Ok(ChangesPage([], rec.revision, false, true))
        else
          var all := After(rec.changes, after);
          var page := if |all| <= limit then all else all[..limit];
          var end := if page == [] then after else page[|page| - 1].revision;
          Ok(ChangesPage(page, end, end < rec.revision, false))
  }

  lemma {:induction false} AfterIsSuffix(changes: seq<Change>, after: nat, first: nat)
    requires forall i :: 0 <= i < |changes| ==> changes[i].revision == first + i
    ensures After(changes, after) ==
            (if after < first then changes else if after + 1 - first <= |changes| then changes[after + 1 - first..] else [])
    decreases |changes|
  {
    if changes != [] {
      AfterIsSuffix(changes[1..], after, first + 1);
    }
  }

  predicate Logged(rec: Record, revision: nat) {
    exists i :: 0 <= i < |rec.changes| && rec.changes[i].revision == revision
  }

  // One page of a reachable record: a full refresh is demanded exactly when a change
  // the client has not seen was evicted; otherwise the page is the next changes, in
  // order and without a gap, as many as fit.
  lemma {:induction false} ChangesPageExact(rec: Record, limit: nat, after: nat)
    requires GapFree(rec) && 0 < rec.revision && 0 < limit <= MAX_REVIEW_CHANGES
    ensures var r := ReadChanges(rec, Some(limit), Some(Cursor(rec.id, after)));
            && (r.Ok? <==> after <= rec.revision)
            && (r.Ok? ==>
                  && (r.value.fullRefresh <==> exists v :: after < v <= rec.revision && !Logged(rec, v))
                  && (r.value.fullRefresh ==> r.value.next == rec.revision && r.value.changes == [])
                  && (!r.value.fullRefresh ==>
                        && |r.value.changes| == (if rec.revision - after < limit then rec.revision - after else limit)
                        && r.value.next == after + |r.value.changes|
                        && (r.value.hasMore <==> r.value.next < rec.revision)
                        && forall i :: 0 <= i < |r.value.changes| ==>
                             r.value.changes[i] in rec.changes && r.value.changes[i].revision == after + 1 + i))
  {
    hide After;
    var n := |rec.changes|;
    var first := rec.revision - n + 1;
    AfterIsSuffix(rec.changes, after, first);
    if after <= rec.revision {
      if after + 1 < first {
        assert !Logged(rec, after + 1);
      } else {
        forall v | after < v <= rec.revision ensures Logged(rec, v) {
          assert rec.changes[v - first].revision == v;
        }
      }
    }
  }

  // ---- feedback.get ----

  datatype FeedbackPage = FeedbackPage(submissions: seq<Submission>, threads: seq<Thread>, lastReturn: Option<Return>)

  function PendingSubmissions(submissions: seq<Submission>, name: string): (r: seq<Submission>)
    ensures forall s :: s in r <==> s in submissions && name !in s.acknowledgedBy
  {
    if submissions == [] then []
    else
      var last := submissions[|submissions| - 1];
      PendingSubmissions(submissions[..|submissions| - 1], name) + (if name in last.acknowledgedBy then [] else [last])
  }

  // Keeps the first thread of each id, in one pass with a set of the ids seen.
  function FirstSeen(threads: seq<Thread>, seen: set<string>): seq<Thread> {
    if threads == [] then []
    else if threads[0].id in seen then FirstSeen(threads[1..], seen)
    else [threads[0]] + FirstSeen(threads[1..], seen + {threads[0].id})
  }

  // The threads of all batches, the newest batch first.
  function NewestFirst(submissions: seq<Submission>): seq<Thread> {
    if submissions == [] then []
    else submissions[|submissions| - 1].threads + NewestFirst(submissions[..|submissions| - 1])
  }

  function ReadFeedback(rec: Record, consumer: Option<string>): Result<FeedbackPage, Error> {
    var name := Consumer(consumer);
    if !Bounded(name, 256) then Err(Invalid(InvalidParams))
    else
      var pending := PendingSubmissions(rec.submissions, name);
      Ok(FeedbackPage(pending, FirstSeen(NewestFirst(pending), {}), rec.lastReturn))
  }

  predicate FirstOf(threads: seq<Thread>, t: Thread) {
    exists i :: 0 <= i < |threads| && threads[i] == t && forall j :: 0 <= j < i ==> threads[j].id != t.id
  }

  lemma {:induction false} FirstOfTail(threads: seq<Thread>, t: Thread)
    requires threads != []
    ensures FirstOf(threads, t) <==> threads[0] == t || (threads[0].id != t.id && FirstOf(threads[1..], t))
  {
    var rest := threads[1..];
    if threads[0].id != t.id && FirstOf(rest, t) {
      var i :| 0 <= i < |rest| && rest[i] == t && forall j :: 0 <= j < i ==> rest[j].id != t.id;
      assert threads[i + 1] == t && forall j :: 0 < j < i + 1 ==> threads[j] == rest[j - 1];
    }
    if FirstOf(threads, t) && threads[0] != t {
      var i :| 0 <= i < |threads| && threads[i] == t && forall j :: 0 <= j < i ==> threads[j].id != t.id;
      assert rest[i - 1] == t && forall j :: 0 <= j < i - 1 ==> rest[j] == threads[j + 1];
    }
  }

  lemma {:induction false} FirstSeenExact(threads: seq<Thread>, seen: set<string>, t: Thread)
    ensures DistinctThreads(FirstSeen(threads, seen))
    ensures forall u :: u in FirstSeen(threads, seen) ==> u.id !in seen
    ensures t in FirstSeen(threads, seen) <==> t.id !in seen && FirstOf(threads, t)
    decreases |threads|
  {
    if threads != [] {
      FirstSeenExact(threads[1..], if threads[0].id in seen then seen else seen + {threads[0].id}, t);
      FirstOfTail(threads, t);
      hide FirstOf;
    }
  }

  // `t` is the snapshot of its thread in the newest of these batches that has the thread.
  predicate Newest(submissions: seq<Submission>, t: Thread) {
    exists k :: 0 <= k < |submissions| && t in submissions[k].threads && NoneLater(submissions, k, t.id)
  }

  predicate NoneLater(submissions: seq<Submission>, k: nat, id: string) {
    forall l :: k < l < |submissions| ==> !HasThread(submissions[l].threads, id)
  }

  lemma {:induction false} FirstOfConcat(ts: seq<Thread>, us: seq<Thread>, t: Thread)
    requires DistinctThreads(ts)
    ensures FirstOf(ts + us, t) <==> t in ts || (!HasThread(ts, t.id) && FirstOf(us, t))
    decreases |ts|
  {
    if ts == [] {
      assert ts + us == us;
    } else {
      assert (ts + us)[1..] == ts[1..] + us && (ts + us)[0] == ts[0];
      FirstOfTail(ts + us, t);
      FirstOfConcat(ts[1..], us, t);
      HasThreadTail(ts, t.id);
      hide FirstOf, HasThread;
    }
  }

  lemma {:induction false} HasThreadTail(ts: seq<Thread>, id: string)
    requires ts != []
    ensures HasThread(ts, id) <==> ts[0].id == id || HasThread(ts[1..], id)
  {
    if HasThread(ts[1..], id) {
      var i :| 0 <= i < |ts[1..]| && ts[1..][i].id == id;
      assert ts[i + 1].id == id;
    }
  }

  lemma {:induction false} NewestLast(submissions: seq<Submission>, t: Thread)
    requires submissions != []
    ensures var n := |submissions| - 1;
            Newest(submissions, t) <==>
              t in submissions[n].threads || (!HasThread(submissions[n].threads, t.id) && Newest(submissions[..n], t))
  {
    var n := |submissions| - 1;
    var front := submissions[..n];
    if Newest(submissions, t) {
      var k :| 0 <= k < |submissions| && t in submissions[k].threads && NoneLater(submissions, k, t.id);
      if k < n { assert front[k] == submissions[k] && NoneLater(front, k, t.id); }
    }
    if t in submissions[n].threads {
      assert NoneLater(submissions, n, t.id);
    } else if !HasThread(submissions[n].threads, t.id) && Newest(front, t) {
      var k :| 0 <= k < |front| && t in front[k].threads && NoneLater(front, k, t.id);
      assert forall l :: k < l < n ==> front[l] == submissions[l];
      assert NoneLater(submissions, k, t.id);
    }
  }

  lemma {:induction false} NewestFirstExact(submissions: seq<Submission>, t: Thread)
    requires Snapshots(submissions)
    ensures FirstOf(NewestFirst(submissions), t) <==> Newest(submissions, t)
    decreases |submissions|
  {
    if submissions != [] {
      var n := |submissions| - 1;
      NewestFirstExact(submissions[..n], t);
      FirstOfConcat(submissions[n].threads, NewestFirst(submissions[..n]), t);
      NewestLast(submissions, t);
      hide FirstOf, Newest;
    }
  }

  lemma {:induction false} PendingSnapshots(submissions: seq<Submission>, name: string)
    requires Snapshots(submissions)
    ensures Snapshots(PendingSubmissions(submissions, name))
  {
    var p := PendingSubmissions(submissions, name);
    forall k | 0 <= k < |p| ensures p[k].threadIds == ThreadIds(p[k].threads) && DistinctThreads(p[k].threads) {
      assert p[k] in submissions;
    }
  }

  // A consumer's page: exactly the batches it has not acknowledged, and each thread
  // they mention once, as the newest of those batches shows it.
  lemma {:induction false} FeedbackPageExact(rec: Record, consumer: Option<string>)
    requires Snapshots(rec.submissions) && Bounded(Consumer(consumer), 256)
    ensures var r := ReadFeedback(rec, consumer);
            && r.Ok?
            && (forall s :: s in r.value.submissions <==> s in rec.submissions && Consumer(consumer) !in s.acknowledgedBy)
            && DistinctThreads(r.value.threads)
            && (forall t :: t in r.value.threads <==> Newest(r.value.submissions, t))
            && r.value.lastReturn == rec.lastReturn
  {
    hide FirstSeen, NewestFirst, PendingSubmissions, Newest, Snapshots, DistinctThreads, Bounded;
    var pending := PendingSubmissions(rec.submissions, Consumer(consumer));
    PendingSnapshots(rec.submissions, Consumer(consumer));
    var all := NewestFirst(pending);
    forall t ensures t in FirstSeen(all, {}) <==> Newest(pending, t) {
      FirstSeenExact(all, {}, t);
      NewestFirstExact(pending, t);
    }
    FirstSeenExact(all, {}, Thread("", Anchor("", false, None, None, None, None), [], 0, false, Disposition.Open));
  }
}
