/**
 * `WordPressMonitor` from main.py: the cursor `last_post_id` held in memory,
 * the state file that persists it, and the methods that load, seed, save and
 * advance it. The network, the file system and Telegram are replaced by their
 * answers (parameters) and by the trace `effects` of what the monitor does to
 * the outside world.
 */
module Monitor {
  import opened Optional
  import opened Posts
  import opened Message
  import opened Cycle

  /** Concatenation is associative; used to regroup the effect trace of `Run`. */
  lemma AppendAssoc<T>(a: seq<T>, b: seq<T>, c: seq<T>)
    ensures (a + b) + c == a + (b + c)
  {
  }

  class WordPressMonitor {
    /** `self.last_post_id`. */
    var cursor: Option<int>
    /** The contents of `DATA_FILE`. */
    var stored: StateFile
    /** Every file write and `send_message` call so far, in order. */
    var effects: seq<Effect>

    /** The state file is in step with memory: a restart now would resume from `cursor`. */
    ghost predicate Valid()
      reads this
    {
      stored != Absent && Restored(stored) == cursor
    }

    /** `__init__`: start without a cursor, then load it or seed it. */
    constructor (file: StateFile, seed: Fetch)
      ensures cursor == StartupCursor(file, seed)
      ensures stored == StartupFile(file, seed)
      ensures effects == StartupEffects(file, seed)
      ensures Valid()
    {
      cursor := None;
      stored := file;
      effects := [];
      new;
      LoadLastPostData(seed);
    }

    /** `load_last_post_data`: read the cursor from an existing file (keeping the
        current one when that fails), or seed it and write the file when there is none. */
    method LoadLastPostData(seed: Fetch)
      modifies this
      ensures old(stored).Saved? ==>
                cursor == old(stored).lastPostId && stored == old(stored) && effects == old(effects)
      ensures old(stored).Unreadable? ==>
                cursor == old(cursor) && stored == old(stored) && effects == old(effects)
      ensures old(stored).Absent? ==>
                cursor == (if SeedId(seed).Some? then SeedId(seed) else old(cursor)) &&
                stored == Saved(cursor) && effects == old(effects) + [Write(cursor)]
    {
      match stored
      case Saved(lastPostId) =>
        cursor := lastPostId;
      case Unreadable =>
        // the error is logged and the cursor is left as it was
      case Absent =>
        var found := GetLatestPostId(seed);
        SaveLastPostData();
    }

    /** `save_last_post_data`: overwrite the file with the cursor. */
    method SaveLastPostData()
      modifies this`stored, this`effects
      ensures stored == Saved(cursor) && effects == old(effects) + [Write(cursor)]
    {
      stored := Saved(cursor);
      effects := effects + [Write(cursor)];
    }

    /** `get_latest_post_id`: set the cursor to the id of the first post of the
        `per_page=1` fetch; on any failure report false and leave the cursor alone. */
    method GetLatestPostId(seed: Fetch) returns (found: bool)
      modifies this`cursor
      ensures found <==> SeedId(seed).Some?
      ensures cursor == if found then SeedId(seed) else old(cursor)
    {
      found := false;
      if seed.Unreachable? {
        return;  // the request raised
      }
      if seed.status != 200 {
        return;
      }
      if seed.body.None? {
        return;  // `response.json()` raised
      }
      var posts := seed.body.value;
      if posts == [] {
        return;  // no posts found
      }
      if posts[0].id.None? {
        return;  // `posts[0]['id']` raised
      }
      cursor := posts[0].id;
      found := true;
    }

    /** `check_for_new_posts`: scan the fetched batch for posts newer than the cursor
        and for its largest id, move and save the cursor, then notify newest first.
        Attempt `k` of the notifications is rejected by Telegram when `k in rejected`. */
    method CheckForNewPosts(response: Fetch, rejected: set<nat>)
      modifies this
      ensures cursor == CursorAfter(old(cursor), response)
      ensures stored == StoredAfter(old(stored), old(cursor), response)
      ensures effects == old(effects) + CycleEffects(old(cursor), response, rejected)
      ensures old(Valid()) ==> Valid()
    {
      if response.Unreachable? || response.status != 200 || response.body.None? {
        return;  // the request or `response.json()` raised, or the status is not 200
      }
      var posts := response.body.value;
      if posts == [] {
        return;  // no posts found
      }

      var complete, newPosts, latestId := ScanBatch(posts);
      if !complete {
        return;  // `post['id']` raised: nothing has been changed yet
      }
      assert Scanned(response) && Batch(response) == Some(posts);
      ghost var notified := Notified(cursor, response);
      ghost var written := if Advance(cursor, response).Some? then [Write(Advance(cursor, response))] else [];
      assert CycleEffects(cursor, response, rejected) == written + Sends(notified, rejected);
      assert notified == SortDesc(newPosts);

      if latestId.Some? && latestId.value != 0 && latestId != cursor {
        cursor := latestId;
        SaveLastPostData();
      }

      NotifyAll(SortDesc(newPosts), rejected);
    }

    /** The last loop of `check_for_new_posts`: one `notify_new_post` per post, in
        order; a rejected attempt does not stop the ones after it. */
    method NotifyAll(ordered: seq<Post>, rejected: set<nat>)
      modifies this`effects
      ensures effects == old(effects) + Sends(ordered, rejected)
    {
      for k := 0 to |ordered|
        invariant effects == old(effects) + Sends(ordered[..k], rejected)
      {
        SendsExtend(ordered, k, rejected);
        NotifyNewPost(ordered[k], k !in rejected);
      }
      assert ordered[..|ordered|] == ordered;
    }

    /** The scan of `check_for_new_posts`: one pass over the batch collecting, in
        batch order, the posts newer than the cursor and the largest id seen. It is
        incomplete when some post has no id (reading `post['id']` raises). */
    method ScanBatch(posts: seq<Post>) returns (complete: bool, newPosts: seq<Post>, latestId: Option<int>)
      ensures complete <==> HasIds(posts)
      ensures complete ==> newPosts == NewPosts(posts, cursor) && latestId == LatestId(posts)
    {
      newPosts, latestId := [], None;
      var i := 0;
      while i < |posts|
        invariant 0 <= i <= |posts|
        invariant HasIds(posts[..i])
        invariant newPosts == NewPosts(posts[..i], cursor)
        invariant latestId == LatestId(posts[..i])
      {
        var post := posts[i];
        if post.id.None? {
          return false, newPosts, latestId;
        }
        var postId := post.id.value;
        ghost var seen := posts[..i + 1];
        assert seen[..i] == posts[..i] && seen[i] == post;
        assert HasIds(seen);
        if latestId.None? || postId > latestId.value {
          latestId := Some(postId);
        }
        if cursor.None? || postId > cursor.value {
          newPosts := newPosts + [post];
        }
        i := i + 1;
      }
      assert posts[..i] == posts;
      complete := true;
    }

    /** `notify_new_post`: build the message for `post` and send it once;
        `accepted` is whether Telegram takes it. A rejection is only logged. */
    method NotifyNewPost(post: Post, accepted: bool)
      modifies this`effects
      ensures effects == old(effects) + [Send(post, Text(post), accepted)]
    {
      var message := Text(post);
      effects := effects + [Send(post, message, accepted)];
    }

    /** `run`: one check per poll, in order (the sleep between checks is not modelled). */
    method Run(polls: seq<Poll>)
      modifies this
      ensures cursor == RunCursor(old(cursor), polls)
      ensures stored == RunStored(old(stored), old(cursor), polls)
      ensures effects == old(effects) + RunEffects(old(cursor), polls)
      ensures old(Valid()) ==> Valid()
    {
      for i := 0 to |polls|
        invariant cursor == RunCursor(old(cursor), polls[..i])
        invariant stored == RunStored(old(stored), old(cursor), polls[..i])
        invariant effects == old(effects) + RunEffects(old(cursor), polls[..i])
        invariant old(Valid()) ==> Valid()
      {
        RunExtend(old(stored), old(cursor), polls, i);
        ghost var before := effects;
        CheckForNewPosts(polls[i].response, polls[i].rejected);
        AppendAssoc(old(effects), RunEffects(old(cursor), polls[..i]), effects[|before|..]);
      }
      assert polls[..|polls|] == polls;
    }
  }
}
