/**
 * One polling check of the monitor and its startup, as functions of the cursor
 * and of what the outside world answers: the posts endpoint, the state file and
 * the Telegram API. The class in monitor.dfy is proved against these functions;
 * the lemmas here state what the check promises.
 */
module Cycle {
  import opened Optional
  import opened Posts
  import opened Message

  /** The outcome of one `requests.get` on the posts endpoint. */
  datatype Fetch =
    | Unreachable                                     // the request raised
    | Response(status: int, body: Option<seq<Post>>)  // body None: `response.json()` is not a list of post objects

  /** The state file `DATA_FILE` as the monitor finds it on disk. */
  datatype StateFile =
    | Absent                              // no such file
    | Unreadable                          // it exists, but opening or parsing it raises
    | Saved(lastPostId: Option<int>)      // `{"last_post_id": ...}`; None for null or a missing key

  /** An externally visible effect, recorded in the order it happens. */
  datatype Effect =
    | Write(lastPostId: Option<int>)                  // `save_last_post_data` overwrote the state file
    | Send(post: Post, text: string, accepted: bool)  // one `send_message` call; not accepted: it raised

  /** One cycle of the run loop: the response of its fetch, and which of its
      notification attempts (counted from 0) Telegram rejects. */
  datatype Poll = Poll(response: Fetch, rejected: set<nat>)

  /** The posts of a response whose status is 200 and whose body decodes. */
  function Batch(response: Fetch): Option<seq<Post>> {
    match response
    case Unreachable => None
    case Response(status, body) => if status != 200 then None else body
  }

  /** The scan of the batch runs to its end: there is a batch, it is not empty,
      and reading `post['id']` raises for none of its posts. */
  predicate Scanned(response: Fetch) {
    Batch(response).Some? && Batch(response).value != [] && HasIds(Batch(response).value)
  }

  /** The id that the check moves the cursor to and saves, if it does so:
      the largest id of the batch, when it is nonzero and differs from the cursor. */
  function Advance(cursor: Option<int>, response: Fetch): Option<int> {
    if !Scanned(response) then None
    else
      var latest := LatestId(Batch(response).value).value;
      if latest != 0 && Some(latest) != cursor then Some(latest) else None
  }

  /** The cursor after one check. */
  function CursorAfter(cursor: Option<int>, response: Fetch): Option<int> {
    if Advance(cursor, response).Some? then Advance(cursor, response) else cursor
  }

  /** The state file after one check. */
  function StoredAfter(stored: StateFile, cursor: Option<int>, response: Fetch): StateFile {
    if Advance(cursor, response).Some? then Saved(Advance(cursor, response)) else stored
  }

  /** The posts one check notifies about, in the order it sends them. */
  function Notified(cursor: Option<int>, response: Fetch): seq<Post> {
    if Scanned(response) then SortDesc(NewPosts(Batch(response).value, cursor)) else []
  }

  /** One send attempt per post, in order; attempt `k` is accepted unless rejected. */
  function Sends(posts: seq<Post>, rejected: set<nat>): seq<Effect> {
    seq(|posts|, k requires 0 <= k < |posts| => Send(posts[k], Text(posts[k]), k !in rejected))
  }

  lemma SendsExtend(posts: seq<Post>, k: nat, rejected: set<nat>)
    requires k < |posts|
    ensures Sends(posts[..k + 1], rejected) ==
            Sends(posts[..k], rejected) + [Send(posts[k], Text(posts[k]), k !in rejected)]
  {
  }

  /** The effects of one check: the save, if any, then the notifications. */
  function CycleEffects(cursor: Option<int>, response: Fetch, rejected: set<nat>): seq<Effect> {
    (if Advance(cursor, response).Some? then [Write(Advance(cursor, response))] else [])
    + Sends(Notified(cursor, response), rejected)
  }

  /** The cursor that loading an existing state file yields (None when it cannot be read). */
  function Restored(stored: StateFile): Option<int>
    requires stored != Absent
  {
    if stored.Saved? then stored.lastPostId else None
  }

  // ---------------------------------------------------------------------------
  // Startup

  /** `posts[0]['id']` of the `per_page=1` seed fetch, when every step of `get_latest_post_id` succeeds. */
  function SeedId(seed: Fetch): Option<int> {
    match Batch(seed)
    case None => None
    case Some(posts) => if posts == [] then None else posts[0].id
  }

  /** The cursor after construction: loaded from the file, left unset when the file
      cannot be read, seeded from the newest post when there is no file. */
  function StartupCursor(file: StateFile, seed: Fetch): Option<int> {
    match file
    case Absent => SeedId(seed)
    case Unreadable => None
    case Saved(c) => c
  }

  /** The state file after construction: only a missing file is written. */
  function StartupFile(file: StateFile, seed: Fetch): StateFile {
    if file.Absent? then Saved(StartupCursor(file, seed)) else file
  }

  function StartupEffects(file: StateFile, seed: Fetch): seq<Effect> {
    if file.Absent? then [Write(StartupCursor(file, seed))] else []
  }

  // ---------------------------------------------------------------------------
  // Runs of several checks

  function RunCursor(cursor: Option<int>, polls: seq<Poll>): Option<int> {
    if polls == [] then cursor
    else CursorAfter(RunCursor(cursor, polls[..|polls| - 1]), polls[|polls| - 1].response)
  }

  function RunStored(stored: StateFile, cursor: Option<int>, polls: seq<Poll>): StateFile {
    if polls == [] then stored
    else
      var init := polls[..|polls| - 1];
      StoredAfter(RunStored(stored, cursor, init), RunCursor(cursor, init), polls[|polls| - 1].response)
  }

  function RunEffects(cursor: Option<int>, polls: seq<Poll>): seq<Effect> {
    if polls == [] then []
    else
      var init := polls[..|polls| - 1];
      var last := polls[|polls| - 1];
      RunEffects(cursor, init) + CycleEffects(RunCursor(cursor, init), last.response, last.rejected)
  }

  /** Extending a run by one poll applies one more check. */
  lemma RunExtend(stored: StateFile, cursor: Option<int>, polls: seq<Poll>, i: nat)
    requires i < |polls|
    ensures var c := RunCursor(cursor, polls[..i]);
            && RunCursor(cursor, polls[..i + 1]) == CursorAfter(c, polls[i].response)
            && RunStored(stored, cursor, polls[..i + 1]) ==
               StoredAfter(RunStored(stored, cursor, polls[..i]), c, polls[i].response)
            && RunEffects(cursor, polls[..i + 1]) ==
               RunEffects(cursor, polls[..i]) + CycleEffects(c, polls[i].response, polls[i].rejected)
  {
    assert polls[..i + 1][..i] == polls[..i];
  }

  // ---------------------------------------------------------------------------
  // What one check promises

  /** A response that fails, does not decode, holds no posts, or holds a post
      without an id changes nothing and sends nothing. */
  lemma FailedCheckChangesNothing(stored: StateFile, cursor: Option<int>, response: Fetch, rejected: set<nat>)
    requires || response.Unreachable?
             || response.status != 200
             || response.body.None?
             || response.body.value == []
             || exists i | 0 <= i < |response.body.value| :: response.body.value[i].id.None?
    ensures CursorAfter(cursor, response) == cursor
    ensures StoredAfter(stored, cursor, response) == stored
    ensures CycleEffects(cursor, response, rejected) == []
  {
  }

  /** After a complete scan, the cursor and the file both move to the largest id
      exactly when it is nonzero and differs from the cursor; otherwise neither changes. */
  lemma CursorUpdate(stored: StateFile, cursor: Option<int>, response: Fetch, m: int)
    requires Scanned(response) && IsMaxId(Batch(response).value, m)
    ensures Advance(cursor, response) == if m != 0 && Some(m) != cursor then Some(m) else None
    ensures CursorAfter(cursor, response) == if m != 0 && Some(m) != cursor then Some(m) else cursor
    ensures StoredAfter(stored, cursor, response) == if m != 0 && Some(m) != cursor then Saved(Some(m)) else stored
  {
  }

  /** The cursor is not monotonic: a batch whose largest id is nonzero but below
      the cursor moves the cursor back to that id. */
  lemma CursorRewinds(cursor: int, response: Fetch, m: int)
    requires Scanned(response) && IsMaxId(Batch(response).value, m)
    requires m != 0 && m < cursor
    ensures CursorAfter(Some(cursor), response) == Some(m)
  {
  }

  /** Notifications go to exactly the new posts of the batch, each as often as it occurs. */
  lemma NotifiedAreNewPosts(cursor: Option<int>, response: Fetch, x: Post)
    requires Scanned(response)
    ensures multiset(Notified(cursor, response))[x] ==
            if x.id.Some? && IsNewer(x.id.value, cursor) then multiset(Batch(response).value)[x] else 0
  {
    SortDescPermutes(NewPosts(Batch(response).value, cursor));
    NewPostsCount(Batch(response).value, cursor, x);
  }

  /** Without a cursor, every post of the batch is notified. */
  lemma NoCursorNotifiesAll(response: Fetch)
    requires Scanned(response)
    ensures multiset(Notified(None, response)) == multiset(Batch(response).value)
  {
    NewPostsWithoutCursor(Batch(response).value);
    SortDescPermutes(Batch(response).value);
  }

  /** Notifications go out newest first, and posts with equal ids in batch order. */
  lemma NotifiedNewestFirst(cursor: Option<int>, response: Fetch, k: int)
    requires Scanned(response)
    ensures HasIds(Notified(cursor, response)) && NonIncreasing(Notified(cursor, response))
    ensures WithId(Notified(cursor, response), k) == WithId(NewPosts(Batch(response).value, cursor), k)
  {
    var s := NewPosts(Batch(response).value, cursor);
    SortDescSorted(s);
    SortDescStable(s, k);
  }

  /** The save, when there is one, is the first effect of the check: every
      notification is sent after it. The other effects are one send per notified post. */
  lemma SaveBeforeNotifications(cursor: Option<int>, response: Fetch, rejected: set<nat>)
    ensures var e := CycleEffects(cursor, response, rejected);
            forall j | 0 <= j < |e| :: e[j].Write? <==> j == 0 && Advance(cursor, response).Some?
    ensures |CycleEffects(cursor, response, rejected)| ==
            (if Advance(cursor, response).Some? then 1 else 0) + |Notified(cursor, response)|
  {
  }

  /** A rejected delivery stops nothing: whatever Telegram rejects, every notified post
      gets its attempt, in the same place, and only the `accepted` flags differ. */
  lemma DeliveryFailureIsolated(cursor: Option<int>, response: Fetch, rejected: set<nat>, k: nat)
    requires k < |Notified(cursor, response)|
    ensures var w := if Advance(cursor, response).Some? then 1 else 0;
            var p := Notified(cursor, response)[k];
            w + k < |CycleEffects(cursor, response, rejected)| &&
            CycleEffects(cursor, response, rejected)[w + k] == Send(p, Text(p), k !in rejected)
  {
  }

  /** A second check on the same batch (with a nonzero largest id) saves nothing,
      sends nothing and leaves the cursor where the first one put it. */
  lemma CheckIsIdempotent(cursor: Option<int>, response: Fetch, rejected: set<nat>, m: int)
    requires Scanned(response) && IsMaxId(Batch(response).value, m) && m != 0
    ensures CursorAfter(cursor, response) == Some(m)
    ensures Advance(Some(m), response).None?
    ensures CycleEffects(Some(m), response, rejected) == []
  {
    CursorUpdate(Absent, cursor, response, m);
    CursorUpdate(Absent, Some(m), response, m);
    NewPostsNoneAbove(Batch(response).value, m);
  }

  /** Idempotence needs the nonzero id: `latest_id` 0 is false in Python, so a check
      of a batch whose only post has id 0 leaves an unset cursor unset and notifies
      that post, whatever Telegram rejects. */
  lemma ZeroIdIsNotIdempotent(p: Post, rejected: set<nat>)
    requires p.id == Some(0)
    ensures var r := Response(200, Some([p]));
            CursorAfter(None, r) == None &&
            CycleEffects(None, r, rejected) == [Send(p, Text(p), 0 !in rejected)]
  {
    assert NewPosts([p], None) == [p];
    assert SortDesc([p]) == [p];
  }

  /** Consequently a run of checks that all fetch that batch never sets the cursor,
      never writes the file and notifies the post again on every check. */
  lemma {:induction false} ZeroIdNotifiedEveryCheck(p: Post, polls: seq<Poll>)
    requires p.id == Some(0)
    requires forall i | 0 <= i < |polls| :: polls[i].response == Response(200, Some([p]))
    ensures RunCursor(None, polls) == None
    ensures |RunEffects(None, polls)| == |polls|
    ensures forall i | 0 <= i < |polls| ::
              RunEffects(None, polls)[i] == Send(p, Text(p), 0 !in polls[i].rejected)
  {
    if polls != [] {
      var init := polls[..|polls| - 1];
      var last := polls[|polls| - 1];
      ZeroIdNotifiedEveryCheck(p, init);
      ZeroIdIsNotIdempotent(p, last.rejected);
      RunLast(None, polls);
      var earlier := RunEffects(None, init);
      assert RunEffects(None, polls) == earlier + [Send(p, Text(p), 0 !in last.rejected)];
      forall i | 0 <= i < |polls|
        ensures RunEffects(None, polls)[i] == Send(p, Text(p), 0 !in polls[i].rejected)
      {
        if i < |init| {
          assert init[i] == polls[i];
        }
      }
    }
  }

  /** A nonempty run is the run without its last poll followed by one more check. */
  lemma RunLast(cursor: Option<int>, polls: seq<Poll>)
    requires |polls| >= 1
    ensures var init := polls[..|polls| - 1];
            var last := polls[|polls| - 1];
            && RunCursor(cursor, polls) == CursorAfter(RunCursor(cursor, init), last.response)
            && RunEffects(cursor, polls) ==
               RunEffects(cursor, init) + CycleEffects(RunCursor(cursor, init), last.response, last.rejected)
  {
  }

  /** A run of one poll is one check. */
  lemma RunOfOne(cursor: Option<int>, polls: seq<Poll>)
    requires |polls| == 1
    ensures RunCursor(cursor, polls) == CursorAfter(cursor, polls[0].response)
    ensures RunEffects(cursor, polls) == CycleEffects(cursor, polls[0].response, polls[0].rejected)
  {
    assert polls[..0] == [];
    assert [] + CycleEffects(cursor, polls[0].response, polls[0].rejected) ==
           CycleEffects(cursor, polls[0].response, polls[0].rejected);
  }

  /** Once the cursor is at the batch's nonzero largest id, one more check of that
      batch changes nothing in the run. */
  lemma RepeatedCheckIsEmpty(cursor: Option<int>, polls: seq<Poll>, m: int)
    requires |polls| >= 1
    requires var last := polls[|polls| - 1].response;
             Scanned(last) && IsMaxId(Batch(last).value, m) && m != 0
    requires RunCursor(cursor, polls[..|polls| - 1]) == Some(m)
    ensures RunCursor(cursor, polls) == Some(m)
    ensures RunEffects(cursor, polls) == RunEffects(cursor, polls[..|polls| - 1])
  {
    var last := polls[|polls| - 1];
    CheckIsIdempotent(Some(m), last.response, last.rejected, m);
    assert RunEffects(cursor, polls[..|polls| - 1]) + [] == RunEffects(cursor, polls[..|polls| - 1]);
  }

  /** If every cycle of a run fetches the same batch (with a nonzero largest id),
      only the first cycle saves or notifies. */
  lemma {:induction false} RepeatedBatchNotifiesOnce(cursor: Option<int>, polls: seq<Poll>, m: int)
    requires |polls| >= 1
    requires forall i | 0 <= i < |polls| :: polls[i].response == polls[0].response
    requires Scanned(polls[0].response) && IsMaxId(Batch(polls[0].response).value, m) && m != 0
    ensures RunCursor(cursor, polls) == Some(m)
    ensures RunEffects(cursor, polls) == CycleEffects(cursor, polls[0].response, polls[0].rejected)
  {
    if |polls| > 1 {
      var init := polls[..|polls| - 1];
      assert init[0] == polls[0];
      RepeatedBatchNotifiesOnce(cursor, init, m);
      RepeatedCheckIsEmpty(cursor, polls, m);
    } else {
      RunOfOne(cursor, polls);
      CheckIsIdempotent(cursor, polls[0].response, polls[0].rejected, m);
    }
  }

  /** The file always restores the cursor in memory: if a restart before the check
      would resume from `cursor`, a restart after it resumes from the new cursor. */
  lemma CheckKeepsFileInStep(stored: StateFile, cursor: Option<int>, response: Fetch)
    requires stored != Absent && Restored(stored) == cursor
    ensures StoredAfter(stored, cursor, response) != Absent
    ensures Restored(StoredAfter(stored, cursor, response)) == CursorAfter(cursor, response)
  {
  }

  // ---------------------------------------------------------------------------
  // What startup promises

  /** A saved cursor is loaded back exactly, without a fetch or a save. */
  lemma SaveLoadRoundTrip(c: Option<int>, seed: Fetch)
    ensures StartupCursor(Saved(c), seed) == c
    ensures StartupFile(Saved(c), seed) == Saved(c) && StartupEffects(Saved(c), seed) == []
  {
  }

  /** After startup the file restores the cursor: the first restart resumes where construction ended. */
  lemma StartupKeepsFileInStep(file: StateFile, seed: Fetch)
    ensures StartupFile(file, seed) != Absent
    ensures Restored(StartupFile(file, seed)) == StartupCursor(file, seed)
  {
  }

  /** An unreadable state file is not re-seeded: the cursor stays unset whatever the
      seed fetch would return, and the next check notifies its whole batch. */
  lemma UnreadableFileIsNotReseeded(seed: Fetch, response: Fetch)
    requires Scanned(response)
    ensures StartupCursor(Unreadable, seed) == None
    ensures multiset(Notified(StartupCursor(Unreadable, seed), response)) == multiset(Batch(response).value)
  {
    NoCursorNotifiesAll(response);
  }

  /** Seeding from the newest post skips the backlog: a first check whose batch has
      no id above the seed notifies nothing. */
  lemma SeedSkipsBacklog(seed: Fetch, response: Fetch, m: int)
    requires SeedId(seed) == Some(m) && Scanned(response)
    requires forall i | 0 <= i < |Batch(response).value| :: Batch(response).value[i].id.value <= m
    ensures StartupFile(Absent, seed) == Saved(Some(m))
    ensures Notified(StartupCursor(Absent, seed), response) == []
  {
    NewPostsNoneAbove(Batch(response).value, m);
  }

  /** A failed seed fetch still writes the file, with `null`: later restarts do not
      re-seed either, and the first check notifies its whole batch. */
  lemma FailedSeedSavesNull(seed: Fetch, response: Fetch)
    requires SeedId(seed).None? && Scanned(response)
    ensures StartupFile(Absent, seed) == Saved(None) && StartupEffects(Absent, seed) == [Write(None)]
    ensures multiset(Notified(StartupCursor(Absent, seed), response)) == multiset(Batch(response).value)
  {
    NoCursorNotifiesAll(response);
  }

  // ---------------------------------------------------------------------------
  // Worked scenarios

  /** Cursor 10 and a batch with ids 11, 12, 13: the cursor becomes 13 and the
      three posts are notified in the order 13, 12, 11. */
  lemma ScenarioThreeNewPosts(a: Post, b: Post, c: Post)
    requires a.id == Some(11) && b.id == Some(12) && c.id == Some(13)
    ensures var r := Response(200, Some([a, b, c]));
            CursorAfter(Some(10), r) == Some(13) && Notified(Some(10), r) == [c, b, a]
  {
    var s := [a, b, c];
    var r := Response(200, Some(s));
    assert Batch(r) == Some(s) && HasIds(s);
    ThreeNewPosts(a, b, c);
    SortThree(a, b, c);
  }

  lemma ThreeNewPosts(a: Post, b: Post, c: Post)
    requires a.id == Some(11) && b.id == Some(12) && c.id == Some(13)
    ensures NewPosts([a, b, c], Some(10)) == [a, b, c]
    ensures LatestId([a, b, c]) == Some(13)
  {
    var s := [a, b, c];
    assert s[..2] == [a, b] && [a, b][..1] == [a] && [a][..0] == [];
    assert LatestId([a, b]) == Some(12);
    assert NewPosts([a], Some(10)) == [a];
    assert NewPosts([a, b], Some(10)) == [a, b];
  }

  lemma SortThree(a: Post, b: Post, c: Post)
    requires a.id == Some(11) && b.id == Some(12) && c.id == Some(13)
    ensures SortDesc([a, b, c]) == [c, b, a]
  {
    var s := [a, b, c];
    assert s[1..] == [b, c] && [b, c][1..] == [c] && [c][1..] == [];
    assert SortDesc([c]) == Insert(c, []) == [c];
    assert [c] + Insert(b, []) == [c, b];
    assert SortDesc([b, c]) == Insert(b, [c]) == [c, b];
    assert [c, b][1..] == [b];
    assert Insert(a, [b]) == [b] + Insert(a, []) == [b, a];
    assert SortDesc(s) == Insert(a, [c, b]) == [c] + Insert(a, [b]);
  }

  /** Cursor 13, a batch with ids 13 and 14, and a rejected delivery for 14: the
      cursor still becomes 14 and is saved, and the failure is not retried. */
  lemma ScenarioRejectedDelivery(a: Post, b: Post)
    requires a.id == Some(13) && b.id == Some(14)
    ensures var r := Response(200, Some([a, b]));
            CursorAfter(Some(13), r) == Some(14) &&
            CycleEffects(Some(13), r, {0}) == [Write(Some(14)), Send(b, Text(b), false)] &&
            CycleEffects(Some(14), r, {}) == []
  {
    var s := [a, b];
    assert s[..1] == [a] && [a][..0] == [];
    assert NewPosts(s, Some(13)) == [b];
    assert NewPosts(s, Some(14)) == [];
  }
}
