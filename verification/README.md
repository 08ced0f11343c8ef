# WordPress post monitor: a Dafny model

This project models the core of a small notifier that watches a WordPress site
and posts a Telegram message for every newly published post. The core is the
class `WordPressMonitor` in `main.py`. It keeps a cursor, `last_post_id`: the
id of the newest post already handled. The cursor is persisted in a JSON state
file so that restarts do not re-notify.

Each check does four things in order:

- it fetches the five most recent posts;
- in one pass it collects the posts newer than the cursor and the largest id
  of the batch;
- it moves the cursor to that id and saves it;
- it sends one message per new post, newest first.

At construction the cursor is loaded from the state file. When there is no
state file, the cursor is seeded from the single newest post and written to a
new file.

The model has five files:

- `option.dfy`: an `Option` type (Python's `None`).
- `posts.dfy`: the post record and the three computations on a batch.
  These are the selection of new posts (`NewPosts`), the largest id
  (`LatestId`) and the stable newest-first order (`SortDesc`).
- `message.dfy`: the message text, and a parser that reads the title and
  link back out of it.
- `cycle.dfy`: one check and the startup, as functions of the cursor and of
  what the outside world answers. The lemmas in this file state what a check
  promises.
- `monitor.dfy`: the class `WordPressMonitor`. Its fields are `cursor`,
  `stored` (the state file) and `effects` (the ordered trace of file writes
  and `send_message` calls). Its methods are proved against the functions of
  `cycle.dfy`.

The outside world is represented as inputs:

- A fetch is `Unreachable`, or `Response(status, body)`. The body is `None`
  when it does not decode to a list of posts.
- The state file is `Absent`, `Unreadable`, or `Saved(lastPostId)`.
- Telegram's answers are the set of notification attempts it rejects.

The code behaves in some ways one might not expect; the model follows the code:

- The cursor is not monotonic. It moves to the batch's largest id whenever
  that id is nonzero and differs from the cursor, so a batch whose largest id
  is below the cursor moves it back (`CursorRewinds`).
- An unreadable state file is not re-seeded. The error is only logged, and
  the cursor stays unset. The next check then notifies its whole batch
  (`UnreadableFileIsNotReseeded`).
- When the seed fetch fails, the state file is still written, with `null`
  (`FailedSeedSavesNull`).
- A largest id of 0 is false in Python, so it never moves the cursor. A check
  is therefore idempotent only when the batch's largest id is nonzero
  (`CheckIsIdempotent`, `ZeroIdIsNotIdempotent`).
- Notifications are in non-increasing id order, not strictly decreasing.
  Posts with equal ids keep their batch order (`NotifiedNewestFirst`).

## Model

| member | source | states |
|---|---|---|
| `Posts.NewPosts` | main.py:113-115 | the selected posts all carry ids and are all newer than the cursor (or there is no cursor); there are no more of them than in the batch |
| `Posts.NewPostsAppend` | main.py:106-115 | the selection of a concatenation is the concatenation of the selections, so it keeps batch order |
| `Posts.NewPostsCount` | main.py:113-115 | a post is selected exactly as often as it occurs in the batch when its id is above the cursor or there is no cursor, and never otherwise |
| `Posts.NewPostsWithoutCursor` | main.py:114 | with no cursor the whole batch is selected, in order |
| `Posts.NewPostsNoneAbove` | main.py:114 | when no id of the batch is above the cursor, nothing is selected |
| `Posts.LatestId` | main.py:103-111 | `latest_id` is `None` exactly for an empty batch, and otherwise an id that occurs in the batch and is at least every id of the batch |
| `Posts.SortDesc` | main.py:123 | the ordered posts all carry ids, and there are as many as were selected |
| `Posts.SortDescSorted` | main.py:123 | the notification order never puts a post before one with a larger id |
| `Posts.SortDescPermutes` | main.py:123 | the notification order is a permutation of the selection |
| `Posts.SortDescStable` | main.py:123 | for every id, the posts with that id appear in the same relative order as in the selection (Python's sort is stable) |
| `Posts.SortDescUnique` | main.py:123 | any order of the selection that never puts a post before one with a larger id and keeps equal ids in selection order is the notification order |
| `Message.ParseText` | main.py:133-137 | the message is the fixed frame around the title ("New post" by default) and the link ("" by default); both can be read back verbatim when the title has no `*` |
| `Message.TextInjective` | main.py:133-137 | posts whose titles have no `*` get equal messages only when titles and links are equal |
| `Cycle.FailedCheckChangesNothing` | main.py:92-107 | an unreachable endpoint, a non-200 status, an undecodable body, an empty batch or a post without an id leaves cursor and file unchanged and sends nothing |
| `Cycle.CursorUpdate` | main.py:117-120 | after a complete scan, cursor and file both become the largest id exactly when it is nonzero and differs from the cursor; otherwise neither changes and nothing is written |
| `Cycle.CursorRewinds` | main.py:118-119 | a nonzero largest id below the cursor moves the cursor back to it |
| `Cycle.NotifiedAreNewPosts` | main.py:113-124 | the notified posts are exactly the new posts of the batch, with multiplicity |
| `Cycle.NoCursorNotifiesAll` | main.py:114-124 | without a cursor every post of the batch is notified |
| `Cycle.NotifiedNewestFirst` | main.py:122-124 | notifications go out in non-increasing id order, ties in batch order |
| `Cycle.SaveBeforeNotifications` | main.py:117-124 | the only write of a check, if there is one, is its first effect; every send comes after it, and there is exactly one send per notified post |
| `Cycle.DeliveryFailureIsolated` | main.py:122-148 | notification attempt k is for the k-th notified post whatever Telegram rejects; only its accepted flag depends on the rejections |
| `Cycle.CheckIsIdempotent` | main.py:106-124 | with a nonzero largest id, the cursor ends at that id, and a second check on the same batch writes nothing and sends nothing |
| `Cycle.ZeroIdIsNotIdempotent` | main.py:114-124 | one check of a batch whose only post has id 0, with no cursor, leaves the cursor unset and sends that post's message once, whatever Telegram rejects |
| `Cycle.ZeroIdNotifiedEveryCheck` | main.py:150-156 | a run of checks that all fetch that batch never sets the cursor, never writes, and sends the post's message once per check |
| `Cycle.RepeatedBatchNotifiesOnce` | main.py:150-156 | a run of checks that all fetch the same batch (nonzero largest id) has the effects of its first check only |
| `Cycle.CheckKeepsFileInStep` | main.py:117-120 | if the file restored the cursor before a check, it restores the new cursor after it |
| `Cycle.SaveLoadRoundTrip` | main.py:38-57 | a saved cursor is loaded back exactly at startup, with no fetch and no write |
| `Cycle.StartupKeepsFileInStep` | main.py:38-51 | after construction the state file exists and restores the cursor in memory |
| `Cycle.UnreadableFileIsNotReseeded` | main.py:40-47 | an unreadable file leaves the cursor unset whatever the seed fetch returns, and the first check notifies the whole batch |
| `Cycle.SeedSkipsBacklog` | main.py:48-51 | seeding from the newest post writes that id, and a first check with no newer post notifies nothing |
| `Cycle.FailedSeedSavesNull` | main.py:48-82 | a failed seed fetch still writes `null`, and the first check notifies the whole batch |
| `Cycle.ScenarioThreeNewPosts` | main.py:84-124 | cursor 10 and ids 11, 12, 13: the cursor becomes 13 and the posts are notified as 13, 12, 11 |
| `Cycle.ScenarioRejectedDelivery` | main.py:84-148 | cursor 13, ids 13 and 14, delivery for 14 rejected: the cursor is saved as 14 before the one send, and a repeat check does nothing |
| `Monitor.WordPressMonitor.constructor` | main.py:30-36 | the cursor, file and effects after construction are those of the startup functions, and the file restores the cursor |
| `Monitor.WordPressMonitor.LoadLastPostData` | main.py:38-51 | a saved file sets the cursor; an unreadable one changes nothing; a missing one seeds the cursor (kept on failure) and writes it |
| `Monitor.WordPressMonitor.SaveLastPostData` | main.py:53-59 | the file is overwritten with the cursor and one write is recorded |
| `Monitor.WordPressMonitor.GetLatestPostId` | main.py:61-82 | the result is true exactly when the seed fetch yields a first post with an id, and then the cursor is that id; otherwise the cursor is unchanged |
| `Monitor.WordPressMonitor.CheckForNewPosts` | main.py:84-127 | cursor, file and effects afterwards are those of one check, and a file in step with the cursor stays in step |
| `Monitor.WordPressMonitor.ScanBatch` | main.py:102-115 | the scan completes exactly when every post has an id, and then yields the selection and the largest id |
| `Monitor.WordPressMonitor.NotifyAll` | main.py:122-124 | one send per post, in order, each accepted unless its attempt is rejected |
| `Monitor.WordPressMonitor.NotifyNewPost` | main.py:129-148 | exactly one send of the post's message is recorded, accepted or not |
| `Monitor.WordPressMonitor.Run` | main.py:150-162 | a run of checks has the cursor, file and effects of the checks applied in order, and keeps the file in step |

## Left out

- HTTP: `requests.get`, its headers and the `per_page` parameter are not modelled. A fetch is an input value. The limit of five posts per batch is not enforced on that input.
- JSON values of the wrong type are not modelled: a `title` that is not an object, an `id` that is not an integer, a `null` link. For example, a non-object `title` makes `notify_new_post` raise before sending; in the model every notified post gets a send.
- Telegram: the `Bot` client and `send_message` are replaced by the set of rejected attempts. Markdown parsing errors on Telegram's side count as rejections.
- SaveLastPostData: a failed write (open or dump raising) is not modelled. Every save overwrites the file, and a partially written file does not occur.
- Reading the file is reduced to three outcomes. Open errors, invalid JSON and non-object JSON are all `Unreadable`.
- Run: the loop is finite (one check per given poll). The sleep between checks, `KeyboardInterrupt` and the outer exception handler are not modelled; every exception of a check is already handled inside it.
- `asyncio` is not modelled: the awaited calls run in sequence, as they do in the source.
- Logging, `load_dotenv`, environment configuration and the placeholder-token exit check are not modelled.
- telegram_message_test.py is not part of this model: it is a manual script that sends one message.
