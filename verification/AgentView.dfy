// What an agent sees of a review over MCP.
module AgentView {
  import opened Wrappers
  import opened ReviewTypes
  import opened ReviewHandlers
  import opened ReviewInvariant
  import opened ReviewRuns

  // ---- projections ----

  // The (id, revision) pairs that submissions carry.
  ghost function SubmittedVersions(submissions: seq<Submission>): iset<(string, nat)> {
    iset v: (string, nat) | Sent(submissions, v.0, v.1)
  }

  ghost predicate Shows(submitted: iset<(string, nat)>, m: Message) {
    m.origin == Agent || (m.id, m.revision) in submitted
  }

  ghost function Shown(messages: seq<Message>, submitted: iset<(string, nat)>): (r: seq<Message>)
    ensures forall m :: m in r <==> m in messages && Shows(submitted, m)
  {
    if messages == [] then []
    else
      var last := messages[|messages| - 1];
      Shown(messages[..|messages| - 1], submitted) + (if Shows(submitted, last) then [last] else [])
  }

  ghost function ProjectThread(t: Thread, submitted: iset<(string, nat)>): Thread {
    t.(messages := Shown(t.messages, submitted))
  }

  // `review_open` and `review_get`: the live threads, with unsent human text left out.
  ghost function ProjectReview(rec: Record): (r: seq<Thread>)
    ensures |r| == |rec.threads|
    ensures forall i :: 0 <= i < |r| ==> r[i] == ProjectThread(rec.threads[i], SubmittedVersions(rec.submissions))
  {
    seq(|rec.threads|, i requires 0 <= i < |rec.threads| => ProjectThread(rec.threads[i], SubmittedVersions(rec.submissions)))
  }

  // A submission carries this very message.
  predicate Delivered(submissions: seq<Submission>, m: Message) {
    exists k :: 0 <= k < |submissions| && InThreads(submissions[k].threads, m)
  }

  lemma {:induction false} SentIsDelivered(r: Record, m: Message)
    requires Inv(r) && InThreads(r.threads, m) && Sent(r.submissions, m.id, m.revision)
    ensures Delivered(r.submissions, m)
  {
    var k :| 0 <= k < |r.submissions| && ThreadsCarry(r.submissions[k].threads, m.id, m.revision);
    var i :| 0 <= i < |r.submissions[k].threads| && Carries(r.submissions[k].threads[i].messages, m.id, m.revision);
    var a :| 0 <= a < |r.submissions[k].threads[i].messages| && r.submissions[k].threads[i].messages[a].id == m.id
            && r.submissions[k].threads[i].messages[a].revision == m.revision;
    var n := r.submissions[k].threads[i].messages[a];
    assert InThreads(r.submissions[k].threads, n);
    assert Version(r, n) && Version(r, m);
  }

  lemma {:induction false} DeliveredIsSent(submissions: seq<Submission>, m: Message)
    requires Delivered(submissions, m)
    ensures Sent(submissions, m.id, m.revision)
  {
    var k :| 0 <= k < |submissions| && InThreads(submissions[k].threads, m);
    var i :| 0 <= i < |submissions[k].threads| && m in submissions[k].threads[i].messages;
    assert Carries(submissions[k].threads[i].messages, m.id, m.revision);
    assert ThreadsCarry(submissions[k].threads, m.id, m.revision);
  }

  // Feedback visibility: of a live thread in a reachable record the agent sees its own
  // messages and exactly those human messages, as they stand, that a submission carries.
  lemma {:induction false} AgentSeesSubmittedOnly(es: seq<Event>, id: string, i: nat, m: Message)
    requires FreshRun(map[], es) && id in Run(map[], es) && i < |Run(map[], es)[id].threads|
    ensures var r := Run(map[], es)[id];
            m in ProjectReview(r)[i].messages <==>
              m in r.threads[i].messages && (m.origin == Agent || Delivered(r.submissions, m))
  {
    hide Run, FreshRun, Inv, Delivered, ProjectReview;
    RunKeeps(map[], es);
    SeesSubmittedOnly(Run(map[], es)[id], i, m);
  }

  lemma {:induction false} SeesSubmittedOnly(r: Record, i: nat, m: Message)
    requires Inv(r) && i < |r.threads|
    ensures m in ProjectReview(r)[i].messages <==> m in r.threads[i].messages && (m.origin == Agent || Delivered(r.submissions, m))
  {
    hide Inv, Sent, Delivered;
    if m in r.threads[i].messages {
      assert InThreads(r.threads, m);
      if Sent(r.submissions, m.id, m.revision) { SentIsDelivered(r, m); }
      if Delivered(r.submissions, m) { DeliveredIsSent(r.submissions, m); }
    }
  }

  // ---- feedback, paged by submission ----

  const PAGE_BYTES := 512 * 1024

  // How many of these items, given their encoded sizes, one page takes: all that fit
  // after `used` bytes, and the first one whatever its size.
  function PageCount(sizes: seq<nat>, limit: nat, used: nat, taken: nat): (n: nat)
    ensures n <= |sizes| && n <= limit
    ensures taken == 0 && sizes != [] && 0 < limit ==> 0 < n
    decreases |sizes|
  {
    if sizes == [] || limit == 0 then 0
    else if taken != 0 && used + sizes[0] > PAGE_BYTES then 0
    else 1 + PageCount(sizes[1..], limit - 1, used + sizes[0], taken + 1)
  }

  function Total(sizes: seq<nat>): nat {
    if sizes == [] then 0 else sizes[0] + Total(sizes[1..])
  }

  // A page stays within the byte budget unless it is a single item, and stops only at
  // the end, at the limit or before an item that does not fit.
  lemma {:induction false} PageCountExact(sizes: seq<nat>, limit: nat, used: nat, taken: nat)
    ensures var n := PageCount(sizes, limit, used, taken);
            && (used + Total(sizes[..n]) <= PAGE_BYTES || n == 0 || (n == 1 && taken == 0))
            && (n == |sizes| || n == limit || (0 < taken + n && used + Total(sizes[..n]) + sizes[n] > PAGE_BYTES))
    decreases |sizes|
  {
    var n := PageCount(sizes, limit, used, taken);
    if sizes != [] && limit != 0 && !(taken != 0 && used + sizes[0] > PAGE_BYTES) {
      PageCountExact(sizes[1..], limit - 1, used + sizes[0], taken + 1);
      assert sizes[..n][1..] == sizes[1..][..n - 1];
      if n > 1 { assert sizes[1..][n - 1..] == sizes[n..]; }
      if taken == 0 && n > 1 {
        FirstFits(sizes[1..], limit - 1, used + sizes[0], taken + 1);
      }
    }
  }

  lemma {:induction false} FirstFits(sizes: seq<nat>, limit: nat, used: nat, taken: nat)
    requires 0 < taken && 0 < PageCount(sizes, limit, used, taken)
    ensures used + Total(sizes[..PageCount(sizes, limit, used, taken)]) <= PAGE_BYTES
    decreases |sizes|
  {
    var n := PageCount(sizes, limit, used, taken);
    assert sizes[..n][1..] == sizes[1..][..n - 1];
    if n > 1 {
      FirstFits(sizes[1..], limit - 1, used + sizes[0], taken + 1);
    } else {
      assert sizes[..1] == [sizes[0]] && sizes[..1][1..] == [];
    }
  }

  // The page from `start`, and the cursor after it: the record's revision and an offset.
  function PageAt<T>(items: seq<T>, start: nat, limit: nat, revision: nat, size: T -> nat): (seq<T>, Option<(nat, nat)>)
    requires start <= |items|
  {
    var n := PageCount(Sizes(items[start..], size), limit, 0, 0);
    (items[start..start + n], if start + n < |items| then Some((revision, start + n)) else None)
  }

  // The loop of `page`, over items already projected; `size` stands for the length of
  // an item's JSON.
  method Page<T>(items: seq<T>, cursor: Option<(nat, nat)>, limit: nat, revision: nat, size: T -> nat)
    returns (r: Result<(seq<T>, Option<(nat, nat)>), Error>)
    ensures cursor.Some? && (cursor.value.0 != revision || cursor.value.1 > |items|) <==> r.Err?
    ensures r.Ok? ==> r.value == PageAt(items, if cursor.Some? then cursor.value.1 else 0, limit, revision, size)
  {
    hide PageCount, Sizes, PageAt;
    var start: nat := 0;
    if cursor.Some? {
      if cursor.value.0 != revision || cursor.value.1 > |items| { return Err(Invalid(InvalidCursor)); }
      start := cursor.value.1;
    }
    var bytes: nat, taken: nat := 0, 0;
    ghost var all := PageCount(Sizes(items[start..], size), limit, 0, 0);
    while taken < limit && start + taken < |items|
      invariant start + taken <= |items| && taken <= limit
      invariant taken + PageCount(Sizes(items[start + taken..], size), limit - taken, bytes, taken) == all
    {
      var length := size(items[start + taken]);
      PageMore(items, start + taken, size, limit - taken, bytes, taken);
      if taken != 0 && bytes + length > PAGE_BYTES { break; }
      bytes, taken := bytes + length, taken + 1;
    }
    PageEnds(items, start + taken, size, limit - taken, bytes, taken);
    PageIs(items, start, limit, revision, size, taken);
    var next: nat := start + taken;
    r := Ok((items[start..next], if next < |items| then Some((revision, next)) else None));
  }

  lemma {:induction false} PageIs<T>(items: seq<T>, start: nat, limit: nat, revision: nat, size: T -> nat, n: nat)
    requires start <= |items| && n == PageCount(Sizes(items[start..], size), limit, 0, 0)
    ensures start + n <= |items|
    ensures PageAt(items, start, limit, revision, size) == (items[start..start + n], if start + n < |items| then Some((revision, start + n)) else None)
  {
  }

  // One turn of the loop.
  lemma {:induction false} PageMore<T>(items: seq<T>, k: nat, size: T -> nat, limit: nat, used: nat, taken: nat)
    requires k < |items| && 0 < limit
    ensures PageCount(Sizes(items[k..], size), limit, used, taken) ==
            if taken != 0 && used + size(items[k]) > PAGE_BYTES then 0
            else 1 + PageCount(Sizes(items[k + 1..], size), limit - 1, used + size(items[k]), taken + 1)
  {
    assert Sizes(items[k..], size)[1..] == Sizes(items[k + 1..], size);
  }

  lemma {:induction false} PageEnds<T>(items: seq<T>, k: nat, size: T -> nat, limit: nat, used: nat, taken: nat)
    requires k <= |items| && (k == |items| || limit == 0 || (taken != 0 && used + size(items[k]) > PAGE_BYTES))
    ensures PageCount(Sizes(items[k..], size), limit, used, taken) == 0
  {
  }

  function Sizes<T>(items: seq<T>, size: T -> nat): (r: seq<nat>)
    ensures |r| == |items| && forall k :: 0 <= k < |r| ==> r[k] == size(items[k])
  {
    seq(|items|, k requires 0 <= k < |items| => size(items[k]))
  }

  // Following the cursor at one revision.
  function AllItems<T>(items: seq<T>, start: nat, limit: nat, revision: nat, size: T -> nat): seq<T>
    requires start <= |items| && 0 < limit
    decreases |items| - start
  {
    var page := PageAt(items, start, limit, revision, size);
    if page.1.Some? then page.0 + AllItems(items, page.1.value.1, limit, revision, size) else page.0
  }

  // While the review does not change, the pages are the whole list, in order.
  lemma {:induction false} PagesAreLossless<T>(items: seq<T>, start: nat, limit: nat, revision: nat, size: T -> nat)
    requires start <= |items| && 0 < limit
    ensures AllItems(items, start, limit, revision, size) == items[start..]
    decreases |items| - start
  {
    var n := PageCount(Sizes(items[start..], size), limit, 0, 0);
    if start + n < |items| {
      PagesAreLossless(items, start + n, limit, revision, size);
      assert items[start..start + n] + items[start + n..] == items[start..];
    }
  }
}
