/**
 * Posts of the WordPress REST API and the three computations that the polling
 * check in main.py performs on a fetched batch: the selection of the posts newer
 * than the cursor, the largest id of the batch, and the newest-first ordering in
 * which notifications go out.
 */
module Posts {
  import opened Optional

  /** A post object as the API returns it, reduced to the keys the monitor reads.
      Each key may be missing from the JSON object. */
  datatype Post = Post(id: Option<int>, rendered: Option<string>, link: Option<string>)

  /** Every post of the batch carries an `id` (reading `post['id']` does not raise). */
  predicate HasIds(s: seq<Post>) {
    forall i | 0 <= i < |s| :: s[i].id.Some?
  }

  /** A post with id `id` is new with respect to the cursor: there is no cursor yet,
      or the id is greater than it. */
  predicate IsNewer(id: int, cursor: Option<int>) {
    cursor.None? || id > cursor.value
  }

  /** The posts of `s` that are new with respect to `cursor`, in batch order
      (the list `new_posts` that the scan appends to). */
  function NewPosts(s: seq<Post>, cursor: Option<int>): (r: seq<Post>)
    requires HasIds(s)
    ensures HasIds(r) && |r| <= |s|
    ensures forall i | 0 <= i < |r| :: IsNewer(r[i].id.value, cursor)
  {
    if s == [] then []
    else
      var p := s[|s| - 1];
      var init := NewPosts(s[..|s| - 1], cursor);
      if IsNewer(p.id.value, cursor) then init + [p] else init
  }

  /** `m` is the largest id of the batch. */
  predicate IsMaxId(s: seq<Post>, m: int)
    requires HasIds(s)
  {
    (exists i | 0 <= i < |s| :: s[i].id == Some(m)) &&
    forall i | 0 <= i < |s| :: s[i].id.value <= m
  }

  /** The value of `latest_id` after the scan has visited the posts of `s`:
      `None` before any post, then the largest id seen. */
  function LatestId(s: seq<Post>): (r: Option<int>)
    requires HasIds(s)
    ensures r.None? <==> s == []
    ensures r.Some? ==> IsMaxId(s, r.value)
  {
    if s == [] then None
    else
      var id := s[|s| - 1].id.value;
      var seen := LatestId(s[..|s| - 1]);
      if seen.None? || id > seen.value then Some(id) else seen
  }

  /** Ids never increase from left to right. */
  predicate NonIncreasing(s: seq<Post>)
    requires HasIds(s)
  {
    forall i, j | 0 <= i < j < |s| :: s[i].id.value >= s[j].id.value
  }

  /** The posts of `s` whose id is `k`, in order. */
  function WithId(s: seq<Post>, k: int): seq<Post> {
    if s == [] then []
    else (if s[0].id == Some(k) then [s[0]] else []) + WithId(s[1..], k)
  }

  /** Places `p` after the posts of `s` with a larger id and before the others. */
  function Insert(p: Post, s: seq<Post>): (r: seq<Post>)
    requires p.id.Some? && HasIds(s)
    ensures HasIds(r) && |r| == |s| + 1
  {
    if s == [] || s[0].id.value <= p.id.value then [p] + s
    else [s[0]] + Insert(p, s[1..])
  }

  /** The batch ordered by id, largest first, keeping batch order among equal ids:
      Python's `sorted(posts, key=id, reverse=True)`, which is a stable sort. */
  function SortDesc(s: seq<Post>): (r: seq<Post>)
    requires HasIds(s)
    ensures HasIds(r) && |r| == |s|
  {
    if s == [] then [] else Insert(s[0], SortDesc(s[1..]))
  }

  // ---------------------------------------------------------------------------
  // The selection of new posts

  /** The selection distributes over concatenation: it keeps batch order. */
  lemma {:induction false} NewPostsAppend(a: seq<Post>, b: seq<Post>, cursor: Option<int>)
    requires HasIds(a) && HasIds(b)
    ensures HasIds(a + b)
    ensures NewPosts(a + b, cursor) == NewPosts(a, cursor) + NewPosts(b, cursor)
    decreases |b|
  {
    if b == [] {
      assert a + b == a;
    } else {
      var b' := b[..|b| - 1];
      NewPostsAppend(a, b', cursor);
      assert (a + b)[..|a + b| - 1] == a + b';
    }
  }

  /** A post is selected as often as it occurs in the batch when it is new, and never otherwise. */
  lemma {:induction false} NewPostsCount(s: seq<Post>, cursor: Option<int>, x: Post)
    requires HasIds(s)
    ensures multiset(NewPosts(s, cursor))[x] ==
            if x.id.Some? && IsNewer(x.id.value, cursor) then multiset(s)[x] else 0
  {
    if s != [] {
      var s' := s[..|s| - 1];
      NewPostsCount(s', cursor, x);
      assert s == s' + [s[|s| - 1]];
    }
  }

  /** Without a cursor every post of the batch is selected. */
  lemma {:induction false} NewPostsWithoutCursor(s: seq<Post>)
    requires HasIds(s)
    ensures NewPosts(s, None) == s
  {
    if s != [] {
      NewPostsWithoutCursor(s[..|s| - 1]);
      assert s == s[..|s| - 1] + [s[|s| - 1]];
    }
  }

  /** When the cursor is at least every id of the batch, nothing is selected. */
  lemma {:induction false} NewPostsNoneAbove(s: seq<Post>, c: int)
    requires HasIds(s)
    requires forall i | 0 <= i < |s| :: s[i].id.value <= c
    ensures NewPosts(s, Some(c)) == []
  {
    if s != [] {
      NewPostsNoneAbove(s[..|s| - 1], c);
    }
  }

  // ---------------------------------------------------------------------------
  // The newest-first order

  lemma {:induction false} InsertSorted(p: Post, s: seq<Post>)
    requires p.id.Some? && HasIds(s) && NonIncreasing(s)
    ensures NonIncreasing(Insert(p, s))
  {
    if s != [] && s[0].id.value > p.id.value {
      InsertSorted(p, s[1..]);
      var t := Insert(p, s[1..]);
      assert t[0] == p || t[0] == s[1];
      assert forall j | 0 <= j < |t| :: t[j].id.value <= t[0].id.value <= s[0].id.value;
    }
  }

  lemma {:induction false} InsertPermutes(p: Post, s: seq<Post>)
    requires p.id.Some? && HasIds(s)
    ensures multiset(Insert(p, s)) == multiset(s) + multiset{p}
  {
    if s != [] && s[0].id.value > p.id.value {
      InsertPermutes(p, s[1..]);
      assert s == [s[0]] + s[1..];
    }
  }

  /** The notification order is a permutation of the selection. */
  lemma {:induction false} SortDescPermutes(s: seq<Post>)
    requires HasIds(s)
    ensures multiset(SortDesc(s)) == multiset(s)
  {
    if s != [] {
      SortDescPermutes(s[1..]);
      InsertPermutes(s[0], SortDesc(s[1..]));
      assert s == [s[0]] + s[1..];
    }
  }

  /** The notification order never puts a post before one with a larger id. */
  lemma {:induction false} SortDescSorted(s: seq<Post>)
    requires HasIds(s)
    ensures NonIncreasing(SortDesc(s))
  {
    if s != [] {
      SortDescSorted(s[1..]);
      InsertSorted(s[0], SortDesc(s[1..]));
    }
  }

  lemma {:induction false} WithIdAppend(a: seq<Post>, b: seq<Post>, k: int)
    ensures WithId(a + b, k) == WithId(a, k) + WithId(b, k)
  {
    if a == [] {
      assert a + b == b;
    } else {
      var head := if a[0].id == Some(k) then [a[0]] else [];
      assert (a + b)[1..] == a[1..] + b;
      calc {
        WithId(a + b, k);
        head + WithId(a[1..] + b, k);
        { WithIdAppend(a[1..], b, k); }
        head + (WithId(a[1..], k) + WithId(b, k));
        (head + WithId(a[1..], k)) + WithId(b, k);
        WithId(a, k) + WithId(b, k);
      }
    }
  }

  lemma {:induction false} InsertWithId(p: Post, s: seq<Post>, k: int)
    requires p.id.Some? && HasIds(s)
    ensures WithId(Insert(p, s), k) == (if p.id == Some(k) then [p] else []) + WithId(s, k)
  {
    if s == [] || s[0].id.value <= p.id.value {
      WithIdAppend([p], s, k);
    } else {
      InsertWithId(p, s[1..], k);
      WithIdAppend([s[0]], Insert(p, s[1..]), k);
      WithIdAppend([s[0]], s[1..], k);
      assert s == [s[0]] + s[1..];
    }
  }

  /** The sort is stable: posts with the same id keep their batch order. */
  lemma {:induction false} SortDescStable(s: seq<Post>, k: int)
    requires HasIds(s)
    ensures WithId(SortDesc(s), k) == WithId(s, k)
  {
    if s != [] {
      SortDescStable(s[1..], k);
      InsertWithId(s[0], SortDesc(s[1..]), k);
    }
  }

  lemma {:induction false} WithIdMembers(s: seq<Post>, k: int, x: Post)
    ensures x in WithId(s, k) <==> x in s && x.id == Some(k)
  {
    if s != [] {
      WithIdMembers(s[1..], k, x);
      assert s == [s[0]] + s[1..];
    }
  }

  /** The head of a non-increasing sequence carries its largest id. */
  lemma HeadIsLargest(s: seq<Post>, x: Post)
    requires HasIds(s) && NonIncreasing(s) && x in s
    ensures x.id.value <= s[0].id.value
  {
    var j :| 0 <= j < |s| && s[j] == x;
  }

  /** Two non-increasing sequences that hold, for every id, the same posts with
      that id in the same order are equal. */
  lemma {:induction false} NonIncreasingUnique(r: seq<Post>, t: seq<Post>)
    requires HasIds(r) && HasIds(t) && NonIncreasing(r) && NonIncreasing(t)
    requires forall k :: WithId(r, k) == WithId(t, k)
    ensures r == t
    decreases |r|
  {
    if r != [] && t != [] {
      SameHead(r, t);
      forall k ensures WithId(r[1..], k) == WithId(t[1..], k) {
        SameTail(r, t, k);
      }
      NonIncreasingUnique(r[1..], t[1..]);
      assert r == [r[0]] + r[1..] && t == [t[0]] + t[1..];
    } else if r != [] {
      WithIdMembers(r, r[0].id.value, r[0]);
    } else if t != [] {
      WithIdMembers(t, t[0].id.value, t[0]);
    }
  }

  lemma SameHead(r: seq<Post>, t: seq<Post>)
    requires r != [] && t != []
    requires HasIds(r) && HasIds(t) && NonIncreasing(r) && NonIncreasing(t)
    requires WithId(r, r[0].id.value) == WithId(t, r[0].id.value)
    requires WithId(r, t[0].id.value) == WithId(t, t[0].id.value)
    ensures r[0] == t[0]
  {
    var m, n := r[0].id.value, t[0].id.value;
    WithIdMembers(r, m, r[0]);
    WithIdMembers(t, m, r[0]);
    HeadIsLargest(t, r[0]);
    WithIdMembers(t, n, t[0]);
    WithIdMembers(r, n, t[0]);
    HeadIsLargest(r, t[0]);
    assert m == n;
    assert WithId(r, m) == [r[0]] + WithId(r[1..], m);
    assert WithId(t, m) == [t[0]] + WithId(t[1..], m);
    assert WithId(r, m)[0] == r[0] && WithId(t, m)[0] == t[0];
  }

  lemma SameTail(r: seq<Post>, t: seq<Post>, k: int)
    requires r != [] && t != [] && r[0] == t[0]
    requires WithId(r, k) == WithId(t, k)
    ensures WithId(r[1..], k) == WithId(t[1..], k)
  {
    var head := if r[0].id == Some(k) then [r[0]] else [];
    assert WithId(r, k) == head + WithId(r[1..], k);
    assert WithId(t, k) == head + WithId(t[1..], k);
    assert (head + WithId(r[1..], k))[|head|..] == WithId(r[1..], k);
    assert (head + WithId(t[1..], k))[|head|..] == WithId(t[1..], k);
  }

  /** The notification order is the only order of the selection that never puts a
      post before one with a larger id and keeps posts with equal ids in selection order. */
  lemma SortDescUnique(s: seq<Post>, r: seq<Post>)
    requires HasIds(s) && HasIds(r) && NonIncreasing(r)
    requires forall k :: WithId(r, k) == WithId(s, k)
    ensures r == SortDesc(s)
  {
    SortDescSorted(s);
    forall k ensures WithId(r, k) == WithId(SortDesc(s), k) {
      SortDescStable(s, k);
    }
    NonIncreasingUnique(r, SortDesc(s));
  }
}
