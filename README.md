# 方言宝 (dialect app) core, modelled in Dafny

This project models the rule-bearing parts of the 方言宝 dialect-learning app and proves properties of them:

- **Transcript post-processing** in the SenseVoice speech-recognition service (`SenseVoice/api.py`):
  - extracting emotion and event tags;
  - the greedy tag cleanup that produces `clean_text`;
  - choosing the key list;
  - one result record per transcript.
- **Points and levels** (`python_api/models/user.py`, `python_api/services/points_service.py`):
  - the level threshold chain;
  - per-reason daily caps;
  - check-in streaks and bonuses;
  - the status summary.
- **The community state machine** of the Python API, over an in-memory database (`social_db.dfy`):
  - posts and likes;
  - comments, comment likes and soft deletion;
  - follows;
  - notifications;
  - partial profile updates.
- **Verification codes** (`python_api/services/email_service.py`):
  - code drawing;
  - the one-minute resend throttle;
  - expiry;
  - single use.
- **The browser-side WAV encoder** `audioBufferToWav` (`pages/asr_test.js`): the canonical 44-byte PCM header of the RIFF WAVE format, then 16-bit little-endian interleaved samples, written into an `array<Byte>`, where `Byte` is the integers 0 to 255.
- **The two `.env.local` loaders** (`python_api/config.py`, `php-api/common.php`):
  - their line parsers;
  - the Python one keeps existing values and takes a key's first value;
  - the PHP one overwrites, so the last line wins;
  - `Config`'s defaults and validation.

Modules follow the source files:

| module | file | models |
|---|---|---|
| `Wrappers` | `wrappers.dfy` | `Option` and `Result` |
| `Text` | `text.dfy` | `str.strip`/PHP `trim`, `str.find`, `str.split`/`join`, Python `int()` and `str()` on integers |
| `Tags` | `tags.dfy` | the three regular expressions of `SenseVoice/api.py` |
| `AsrApi` | `asr_api.dfy` | `turn_audio_to_text` |
| `Levels` | `levels.dfy` | `python_api/models/user.py` |
| `SocialDb` | `social_db.dfy` | the tables the services share, as fields of class `Database` |
| `PointsService`, `PostService`, `CommentService`, `FollowService`, `NotificationService`, `UserService`, `EmailService` | one file each | the services of the same name |
| `WavEncoder` | `wav_encoder.dfy` | `audioBufferToWav` |
| `EnvConfig` | `env_config.dfy` | `python_api/config.py` |
| `PhpEnv` | `php_env.dfy` | `load_env_local` of `php-api/common.php` |

Foreign code and I/O are parameters of the model:

- SQL runs over the class `Database`, whose tables are fields:
  - `users` is a `map` keyed by id;
  - the other tables are `seq`s in insertion order;
  - likes, comment likes and follow edges are the sets their unique indexes make them.
- `NOW()` and `CURRENT_DATE` are `now`/`today` parameters.
- `random.choices` is a `draw` function parameter.
- Audio decoding, resampling, inference and `rich_transcription_postprocess` are function parameters.
- The file system is a `map` from path to text.
- The process environment is the `vars` field of an `Environment` object.

Rows are created in `created_at` order, so "newest first" is reverse insertion order.

## Model

| member | source | states |
|---|---|---|
| Text.TrimIsSlice | python_api/config.py:67 | the stripped text is one contiguous piece of the input, and every character removed on either side is in the stripped set |
| Text.TrimOfPadded | python_api/config.py:67 | stripping text made of stripped characters, a core whose two ends are not stripped characters, and more stripped characters gives exactly the core |
| Text.TrimFixed | python_api/config.py:71 | a string whose ends are not stripped characters is returned unchanged |
| Text.TrimIdempotent | SenseVoice/api.py:127 | stripping twice is stripping once |
| Text.IndexOf | php-api/common.php:23 | `strpos`/`str.find` of one character: `None` exactly when the character is absent, else the index of its first occurrence |
| Text.Split | SenseVoice/api.py:104 | `str.split(",")` yields at least one piece and no piece contains the separator |
| Text.SplitLength | SenseVoice/api.py:104 | `split` yields one piece more than there are separators |
| Text.JoinSplit | SenseVoice/api.py:104 | joining the pieces with the separator gives the original string back |
| Text.ParseIntOfLiteral | python_api/config.py:41 | `int()` accepts the whitespace it skips (tab to carriage return, space and the non-ASCII Unicode spaces, but not the separators 0x1C-0x1F), an optional '+' or '-', digits with single underscores between them, and that whitespace again, and returns the signed value of the digits |
| Text.ParseIntSome | python_api/config.py:41 | every string `int()` accepts has that shape, with only int()'s own whitespace around it, and its value is the signed value of its digits |
| Text.SeparatorIsNotIntSpace | python_api/config.py:41 | `int()` refuses a number with a separator character 0x1C or 0x1F before or after it |
| Text.SeparatorIsPyWhitespace | python_api/config.py:67 | `str.strip()` does remove such a separator, so the whitespace of strip and of int differ |
| Text.MalformedIntegers | python_api/config.py:41 | `int()` refuses a stray letter, a sign without digits and a doubled underscore |
| Text.ParseIntToString | python_api/config.py:41 | `int(str(n)) == n` for every integer, so an unset integer setting keeps its value |
| Text.ParseNatToString | python_api/config.py:41 | `int(str(n)) == n` for natural numbers |
| Text.DigitsValueOfNatToString | python_api/config.py:41 | the decimal rendering of n is all digits and reads back as n |
| Text.ParseNegative | python_api/config.py:41 | `int("-" + digits)` is the negated value of the digits |
| Tags.MatchName | SenseVoice/api.py:45-46 | the alternation `(A\|B\|…)`: a name is returned only when it is in the list and its tag starts the text; `None` only when no listed tag starts the text |
| Tags.EmotionNamesArePlain | SenseVoice/api.py:45 | the seven emotion names contain no `<`, `\|` or line break |
| Tags.EventNamesArePlain | SenseVoice/api.py:46 | the eight event names contain no `<`, `\|` or line break |
| Tags.FindAllIsOccurrences | SenseVoice/api.py:123-124 | `re.findall`'s non-overlapping left-to-right scan finds exactly the tags that start at each position (the reference `Occurrences`), duplicates kept |
| Tags.FindAllKnownTag | SenseVoice/api.py:123-124 | a listed tag at the front contributes its name, and the scan continues after it |
| Tags.FindAllOtherTag | SenseVoice/api.py:123-124 | a tag of another name contributes nothing |
| Tags.FindAllPlain | SenseVoice/api.py:123-124 | text without `<` contributes nothing |
| Tags.FindAllRender | SenseVoice/api.py:123-124 | for any text made of tags and plain pieces, `emotions`/`events` are the listed tags in left-to-right order, duplicates kept |
| Tags.RepeatedEmotionsTags | SenseVoice/api.py:123-124 | `<\|HAPPY\|>嗯<\|SAD\|>好的` has emotions `["HAPPY", "SAD"]` and no events |
| Tags.TagPrefixUnique | SenseVoice/api.py:45-46 | two tags with `\|`-free names that both start the text are the same tag |
| Tags.LineEnd | SenseVoice/api.py:44 | `.` stops at the first line break |
| Tags.LastClose | SenseVoice/api.py:44 | the last `\|>` of a range is found, and no later one exists in it |
| Tags.TagMatch | SenseVoice/api.py:44 | a match of `<\|.*\|>` at the front of the text runs from `<\|` to a `\|>` on the same line, and that `\|>` is the last one on the line (greedy) |
| Tags.Sub | SenseVoice/api.py:127 | `re.sub(regex_tag, "", s)` never lengthens its input |
| Tags.SubNoTag | SenseVoice/api.py:127 | `re.sub` leaves text without a match unchanged |
| Tags.FindAllNoTag | SenseVoice/api.py:123-124 | text without a match of `regex_tag` has no emotion or event tags |
| Tags.UntaggedTranscript | SenseVoice/api.py:123-127 | with no match of `regex_tag`, `clean_text` is the stripped transcript and both lists are empty |
| Tags.GreedyCutHasNoTag | SenseVoice/api.py:44 | removing a line's first `<\|` through its last `\|>` leaves no match behind |
| Tags.SubOnOneLine | SenseVoice/api.py:127 | on a line without `\n`, `re.sub` removes everything from the first `<\|` to the last `\|>`, plain text between tags included |
| Tags.SubAcrossNewline | SenseVoice/api.py:127 | a line break ends every match, so each line is substituted on its own |
| Tags.SubIsGreedyPerLine | SenseVoice/api.py:127 | the whole substitution is the per-line greedy cut, the lines joined again with `\n` |
| Tags.TagMatchStopsAtNewline | SenseVoice/api.py:44 | the match at the front of a line ignores what follows the line break |
| Tags.CleanTextHasNoTag | SenseVoice/api.py:127 | on one line, `clean_text` contains nothing `regex_tag` would match |
| Tags.CleanTextShorter | SenseVoice/api.py:127 | `clean_text` is never longer than the raw transcript |
| Tags.CleanTextIdempotent | SenseVoice/api.py:127 | on one line, cleaning `clean_text` again leaves it unchanged |
| Tags.CutAfterLastTag | SenseVoice/api.py:127 | on a line that starts with `<\|`, the greedy cut keeps just the `\|`-free text after the last tag |
| Tags.CleanTextAfterTags | SenseVoice/api.py:127 | for such a line, `clean_text` is the stripped text after the last tag (so `<\|HAPPY\|>嗯<\|SAD\|>好的` gives `好的`) |
| AsrApi.PrepareAll | SenseVoice/api.py:78-99 | either every upload decodes and the audio list is the prepared audio of each upload, in order, or the error names the first upload that fails, all earlier ones having decoded |
| AsrApi.DecodeUploads | SenseVoice/api.py:78-99 | the loop over the uploads computes `PrepareAll` |
| AsrApi.PrepareAllPrefixErr | SenseVoice/api.py:81-88 | a failure among the first uploads is the failure of the whole request |
| AsrApi.Filenames | SenseVoice/api.py:102 | the filenames in upload order |
| AsrApi.SelectKeys | SenseVoice/api.py:101-104 | with `keys` None or empty, the key list is the filenames; otherwise it is `keys.split(",")`, of length (number of commas + 1) |
| AsrApi.KeysIgnoreUploads | SenseVoice/api.py:101-104 | given keys, the key list does not depend on the uploads: it is never checked against the file count |
| AsrApi.KeyCountMismatchExample | SenseVoice/api.py:101-104 | keys `"a,b"` with a single upload give two keys |
| AsrApi.FormatRecord | SenseVoice/api.py:121-137 | a record's `raw` is the untouched text and its `key` defaults to `"unknown"` |
| AsrApi.Records | SenseVoice/api.py:116-137 | an empty inference result gives no records; otherwise there is exactly one record per element of `res[0]`, in order |
| AsrApi.FormatResults | SenseVoice/api.py:119-137 | the loop appends one formatted record per item, in order |
| AsrApi.TurnAudioToText | SenseVoice/api.py:72-139 | a failing upload gives status 400 naming that file, and inference is never called; otherwise inference is called once with the prepared audio in upload order, the selected keys, `use_itn` true, `ban_emo_unk` false and 16000 Hz, and the response is its records |
| Levels.LevelName | python_api/models/user.py:64-86 | `LEVEL_NAMES[level]` for levels 1..6, and "方言新手" for any other value |
| Levels.CalculateLevel | python_api/models/user.py:74-102 | the level is always in 1..6, and for k in 2..6 it is at least k exactly when the points reach `LEVEL_POINTS[k]` |
| Levels.CalculateLevelMonotone | python_api/models/user.py:89-102 | more points never give a lower level |
| Levels.CalculateLevelAtThreshold | python_api/models/user.py:74-102 | `calculate_level(LEVEL_POINTS[k]) == k`, and one point less gives k − 1 |
| Levels.CalculateLevelIsLargestMet | python_api/models/user.py:74-102 | the level is the largest one whose threshold the points meet |
| SocialDb.Database.constructor | python_api/database/migrations.py:122-293 | a fresh database has empty tables |
| SocialDb.PublicProfileOf | python_api/services/user_service.py:99-116 | the public profile copies the row, reads NULL points as 0 and a NULL or zero level as 1, and names the level with `get_level_name` |
| SocialDb.RaisedLevel | python_api/services/user_service.py:245-249 | `SET level = new WHERE level IS NULL OR level < new`: a NULL level becomes the computed one; otherwise the result is the larger of the two, so the stored level never drops |
| SocialDb.PointsAdded | python_api/services/user_service.py:229-249 | `COALESCE(points, 0) + n`, then the guarded level update; `updated_at` is refreshed and no other column changes |
| SocialDb.Matching | python_api/services/notification_service.py:126-136 | a `WHERE` filter: only rows that satisfy it, in ascending id order |
| SocialDb.MatchingComplete | python_api/services/notification_service.py:126-136 | the filter misses no row that satisfies it |
| SocialDb.MatchingAppend | python_api/services/notification_service.py:37-48 | an inserted row adds its own id exactly when it satisfies the filter |
| SocialDb.MatchingUpdateCount | python_api/services/notification_service.py:140-152 | updating one row changes the number of matches only by that row's own verdicts |
| SocialDb.MatchingSameVerdict | python_api/services/notification_service.py:156-168 | an update that keeps every row's verdict keeps the matches |
| SocialDb.NewestFirst | python_api/services/notification_service.py:59-78 | `ORDER BY created_at DESC`: matching rows only, in strictly decreasing id order |
| SocialDb.NewestFirstComplete | python_api/services/notification_service.py:59-78 | no matching row is missing from the newest-first list |
| SocialDb.NewestFirstCount | python_api/services/notification_service.py:59-78 | newest-first and ascending order list the same number of rows |
| SocialDb.Page | python_api/services/notification_service.py:59-78 | `LIMIT l OFFSET o` fails exactly when a bound is negative; otherwise it gives `min(l, max(0, n − o))` rows starting at row o |
| SocialDb.LikesOfAdd | python_api/database/migrations.py:191-222 | inserting a new like row adds one to its target's like count and none to any other target |
| SocialDb.LikesOfRemove | python_api/database/migrations.py:191-222 | deleting a like row removes one from its target's like count and none from any other |
| SocialDb.LikesOfFresh | python_api/database/migrations.py:191-195 | with the foreign key, a new post or comment has no likes |
| SocialDb.LiveCommentsFresh | python_api/database/migrations.py:164-168 | with the foreign key, a new post has no comments |
| SocialDb.Followers | python_api/database/migrations.py:244-249 | a user's followers are exactly the sources of its incoming follow edges |
| SocialDb.Following | python_api/database/migrations.py:244-249 | the users someone follows are exactly the targets of their outgoing edges |
| SocialDb.RemoveEdge | python_api/services/follow_service.py:100-106 | `DELETE FROM follows`: the edge is gone and every other edge stays |
| SocialDb.FollowersAppend | python_api/services/follow_service.py:44-50 | an inserted edge adds one follower to its target and one followee to its source |
| SocialDb.FollowersRemove | python_api/services/follow_service.py:100-106 | under `UNIQUE(follower_id, following_id)`, removing an edge takes exactly one entry off each of its two lists |
| SocialDb.RemoveAbsent | python_api/services/follow_service.py:100-106 | deleting an absent edge changes nothing |
| SocialDb.RemoveAppended | python_api/services/follow_service.py:14-126 | removing an edge that was just added restores the table |
| SocialDb.NoDuplicatesRemove | python_api/database/migrations.py:249 | deletion keeps the follow table free of duplicates |
| SocialDb.FollowCountsKept | python_api/services/user_service.py:136-183 | changing a user's profile, points or level keeps the follow counters equal to the edge counts |
| FollowService.Followed | python_api/services/follow_service.py:51-62 | the followee's `followers_count` and the follower's `following_count` each grow by one; every other user is unchanged |
| FollowService.Unfollowed | python_api/services/follow_service.py:107-118 | both counters drop by one, clamped at 0 (a self-pair takes both decrements on one row), and a missing row is a no-op |
| FollowService.FollowKeeps | python_api/services/follow_service.py:44-65 | inserting a new edge and the two increments keep the counters equal to the edge counts, with no duplicate edges |
| FollowService.UnfollowKeeps | python_api/services/follow_service.py:100-121 | deleting an edge and the clamped decrements keep the counters equal to the edge counts |
| FollowService.Follow | python_api/services/follow_service.py:14-70 | following oneself or someone already followed returns False and writes nothing; otherwise the edge is added and both counters grow; an unknown user raises after rollback; consistency is preserved |
| FollowService.Unfollow | python_api/services/follow_service.py:73-126 | False with no write when the edge is absent; otherwise the edge is removed and both counters drop, clamped at 0 |
| FollowService.IsFollowing | python_api/services/follow_service.py:128-140 | true exactly when the edge exists |
| FollowService.FollowThenUnfollow | python_api/services/follow_service.py:14-126 | a follow followed by an unfollow of the same pair restores the edge table and every user's counters |
| FollowService.CountersNonNegative | python_api/services/follow_service.py:107-118 | in a consistent database the counters count rows, so they are never negative |
| FollowService.FollowerIds | python_api/services/follow_service.py:164-173 | one page of followers found in `users`, newest follow first; a negative bound is an error |
| FollowService.FollowingIds | python_api/services/follow_service.py:240-249 | one page of followed users found in `users`, newest follow first; a negative bound is an error |
| FollowService.FollowerItems | python_api/services/follow_service.py:175-209 | one profile per fetched row, in order, and the viewer's own entry is never marked as followed |
| FollowService.FollowingItems | python_api/services/follow_service.py:251-285 | one profile per fetched row, in order, and every item is marked followed when the viewer owns the list |
| FollowService.GetFollowers | python_api/services/follow_service.py:143-223 | `total` counts every follow row of the user; the items are the page's followers; the viewer's own entry is never marked followed |
| FollowService.GetFollowing | python_api/services/follow_service.py:226-292 | `total` counts every follow row by the user; the items are the page; the owner sees every item marked followed |
| FollowService.FollowingShortcutAgrees | python_api/services/follow_service.py:256-265 | the owner's shortcut gives the same answer as the query it skips |
| NotificationService.CreateNotification | python_api/services/notification_service.py:14-53 | with a truthy actor equal to the recipient, None and no insert; otherwise exactly one unread row is appended and its id returned; a failing foreign key gives None and no insert |
| NotificationService.UnreadAfterCreate | python_api/services/notification_service.py:126-136 | a new notification adds one to its recipient's unread count and nothing to anyone else's |
| NotificationService.GetUnreadCount | python_api/services/notification_service.py:126-138 | the number of the user's notifications with `is_read` false |
| NotificationService.MarkAsRead | python_api/services/notification_service.py:140-154 | true exactly when a notification matches both the id and the owner; only that row changes, and a miss writes nothing |
| NotificationService.MarkAsReadCount | python_api/services/notification_service.py:140-154 | marking one notification read lowers its owner's unread count by at most one |
| NotificationService.AllRead | python_api/services/notification_service.py:162-166 | every row of the user is read afterwards, and other users' rows are untouched |
| NotificationService.MarkAllAsRead | python_api/services/notification_service.py:156-170 | returns the number of the user's previously unread notifications, leaves the user with none unread, and changes no other user's count |
| NotificationService.AllReadCounts | python_api/services/notification_service.py:156-170 | after marking all read the user has no unread notifications and every other user's count is unchanged |
| NotificationService.ActorOf | python_api/services/notification_service.py:83-101 | an actor profile exists exactly when the actor id is truthy and the joined user exists; it copies that user's id, username, nickname and avatar, reads NULL points as 0 and the level as `level or 1`, and names the level accordingly |
| NotificationService.NotificationItems | python_api/services/notification_service.py:80-115 | one item per fetched row, in order |
| NotificationService.GetNotifications | python_api/services/notification_service.py:55-124 | `total` is the user's notification count; the items are the user's notifications newest first at offset (page − 1) × size; a negative bound is an error |
| PostService.CaseLevelIsCalculateLevel | python_api/services/post_service.py:341-352 | the SQL `CASE` cut-offs are exactly those of `calculate_level` |
| PostService.Credited | python_api/services/post_service.py:332-352 | after `_add_user_points` the total grows by the amount (NULL counting as 0) and the level is recomputed from the new total, whatever it was before |
| PostService.CreditedUsers | python_api/services/post_service.py:332-352 | only the credited user's row changes, and an unknown id changes nothing |
| PostService.CreditCanLowerLevel | python_api/services/post_service.py:341-352 | unlike the points service's update, this helper can lower a stored level (level 6 with 0 points becomes 1) |
| PostService.AddUserPoints | python_api/services/post_service.py:332-354 | the users table becomes `CreditedUsers`, and database consistency is kept |
| PostService.CreatePost | python_api/services/post_service.py:15-69 | an unknown author fails the foreign key: None, nothing written; otherwise a post with the next id and zero counters is appended and the author gets 10 points, the level set from the new total |
| PostService.PostAddedKeeps | python_api/services/post_service.py:33-37 | a new post starts with no likes and no comments, so the post counters still match the rows |
| PostService.ToggleLike | python_api/services/post_service.py:357-437 | a missing or deleted post gives None and no change; an existing like is deleted and the counter becomes max(c − 1, 0); otherwise a like row is inserted, the counter becomes c + 1, and the author gains 2 points only if not the liker; an unknown user rolls back; `is_liked` is the new membership; consistency is kept |
| PostService.Unlike | python_api/services/post_service.py:391-411 | the like row is deleted and `likes_count` becomes max(c − 1, 0); nothing else changes |
| PostService.Like | python_api/services/post_service.py:411-435 | the like row is inserted, `likes_count` becomes c + 1, and the author gains 2 points unless the author is the liker |
| PostService.LikesOfAddOthers | python_api/services/post_service.py:413-415 | a new like row changes no other post's like rows |
| PostService.LikesOfRemoveOthers | python_api/services/post_service.py:394-396 | a deleted like row changes no other post's like rows |
| PostService.DeletePost | python_api/services/post_service.py:240-273 | succeeds exactly for the author of a live post and then only sets `is_deleted` and `updated_at`; otherwise False and nothing changes |
| PostService.PostItems | python_api/services/post_service.py:192-218 | one entry per fetched row, in order |
| PostService.GetPosts | python_api/services/post_service.py:135-236 | `total` counts the posts matching the built filter; the page lists them newest first at offset (page − 1) × page_size; `has_more` = offset + len(posts) < total; a failing query gives an empty page with total 0 |
| PostService.HasMoreIsNextPageTest | python_api/services/post_service.py:153-225 | for a successful query, `has_more` agrees with the test page × page_size < total |
| CommentService.LevelForIsCalculateLevel | python_api/services/comment_service.py:570-583 | the service's own `_calculate_level` agrees with `calculate_level` |
| CommentService.Credited | python_api/services/comment_service.py:548-568 | the total grows by the amount (NULL counting as 0), `updated_at` is refreshed, and the level is set from the new total even when that lowers it |
| CommentService.CreditedUsers | python_api/services/comment_service.py:548-568 | only the credited user's row changes, and an unknown id changes nothing |
| CommentService.AddUserPoints | python_api/services/comment_service.py:548-568 | the users table becomes `CreditedUsers`, and consistency is kept |
| CommentService.Recipient | python_api/services/comment_service.py:86-108 | a reply notifies the parent comment's author with type "reply"; a top-level comment notifies the post author with type "comment"; nobody is notified when that recipient is the commenter |
| CommentService.CreateComment | python_api/services/comment_service.py:15-131 | a missing or deleted post, or a given `parent_id` that is not a live comment of the same post, gives None and writes nothing; so does a failing foreign key; otherwise the comment is appended, the post's `comments_count` grows by one, the commenter gets 5 points with the level recomputed, and the notification of `Recipient` is created |
| CommentService.InsertComment | python_api/services/comment_service.py:56-74 | the comment gets the next id and the post's `comments_count` grows by one |
| CommentService.CommentInsertKeeps | python_api/services/comment_service.py:56-74 | the counters still match the rows after the insert and the update |
| CommentService.CommentDeleteKeeps | python_api/services/comment_service.py:393-408 | the counters still match the rows after `delete_comment`'s two updates |
| CommentService.CommentAddedCounts | python_api/services/comment_service.py:67-74 | a new live comment adds one to its post's counter and to no other post's |
| CommentService.CommentAddedLikes | python_api/services/comment_service.py:56-64 | a new comment starts with no likes, so the comment like counters still match |
| CommentService.CommentRemovedCounts | python_api/services/comment_service.py:393-408 | soft-deleting a live comment takes one off its post's counter (never below 0) and off no other post's |
| CommentService.CommentLikeCountsKept | python_api/services/comment_service.py:393-399 | rewriting a comment without touching its like counter keeps the like counters |
| CommentService.LikeCountsAfterCommentCount | python_api/services/comment_service.py:400-406 | updating a post's comment count keeps the post like counters |
| CommentService.DeleteComment | python_api/services/comment_service.py:367-414 | succeeds exactly for the author of a live comment, which is then flagged deleted with content '[已删除]' while its post's count becomes max(c − 1, 0); otherwise False and nothing changes |
| CommentService.ToggleCommentLike | python_api/services/comment_service.py:419-515 | None for a missing or deleted comment; otherwise the like row flips, the count becomes c + 1 on a like or max(c − 1, 0) on an unlike, and only a like by someone else gives the author 2 points and a "like" notification; an unknown user changes nothing |
| CommentService.UnlikeComment | python_api/services/comment_service.py:454-466 | the like row is deleted and the count becomes max(c − 1, 0) |
| CommentService.LikeComment | python_api/services/comment_service.py:470-482 | the like row is inserted and the count becomes c + 1 |
| CommentService.SameVerdictAfterCount | python_api/services/comment_service.py:459-482 | changing a comment's like counter changes no post's comment count |
| CommentService.ReplyItems | python_api/services/comment_service.py:320-351 | one reply entry per fetched row, in order |
| CommentService.Take | python_api/services/comment_service.py:206 | `LIMIT 3`: the first min(n, len) ids |
| CommentService.CommentItems | python_api/services/comment_service.py:184-264 | one entry per top-level row, in order, each carrying the viewer's like, its first live replies oldest first and its live reply count |
| CommentService.CommentItemAt | python_api/services/comment_service.py:184-264 | one top-level entry with its reply preview and reply count |
| CommentService.TopLevelIds | python_api/services/comment_service.py:152-166 | one page of live top-level comments whose author exists, newest first; a negative bound is an error |
| CommentService.ReplyIds | python_api/services/comment_service.py:296-309 | one page of live replies whose author exists, oldest first; a negative bound is an error |
| CommentService.GetComments | python_api/services/comment_service.py:136-276 | the page of top-level comments; `total` counts the post's live comments, replies included; `has_more` = page × page_size < number of live top-level comments |
| CommentService.GetCommentReplies | python_api/services/comment_service.py:280-363 | the page of live replies oldest first; `total` counts all live replies; `has_more` = page × page_size < total |
| CommentService.TotalCountsReplies | python_api/services/comment_service.py:170-182 | the post's live comment count is its live top-level count plus its live reply count |
| CommentService.ShownRepliesAreLiveAndOrdered | python_api/services/comment_service.py:197-208 | every reply a top-level comment carries is a live reply to it; there are at most three, oldest first |
| PointsService.TodaySumAppend | python_api/services/points_service.py:41-47 | a new history row adds its amount to today's sum exactly when it has the same user, reason and day |
| PointsService.Clamped | python_api/services/points_service.py:52-56 | past the cap check, the amount is min(points, limit − today), today's total stays within the limit, and a positive request keeps a positive amount, so the `points == 0` refusal cannot happen |
| PointsService.Granted | python_api/services/points_service.py:37-56 | refused exactly when a capped reason's total today has reached its limit; otherwise min(points, limit − today) for a capped reason and the full amount for any other |
| PointsService.CreditUser | python_api/services/points_service.py:65-83 | the users table after the two UPDATEs: points added with NULL as 0, and the level written only if it is NULL or lower than the computed one |
| PointsService.AddPoints | python_api/services/points_service.py:21-92 | returns True exactly when the grant is allowed; a refusal writes nothing; otherwise one history row of the granted amount is appended and that amount is added to the user |
| PointsService.GrantStaysUnderLimit | python_api/services/points_service.py:49-56 | a granted capped reason never takes the day's total past its limit |
| PointsService.CapHolds | python_api/services/points_service.py:49-50 | once a grant fills the day's quota, every later grant for that reason that day is refused |
| PointsService.CapIsReachedExactly | python_api/services/points_service.py:52-56 | the new day total is today + points when that fits, and exactly the limit when it does not |
| PointsService.HistoryMatchesCredit | python_api/services/points_service.py:58-71 | the history row's amount equals the amount added to the user's total |
| PointsService.Bonus | python_api/services/points_service.py:125-131 | the bonus is 10 for a streak of at least 7, 3 for a streak of at least 3, and 0 otherwise |
| PointsService.BonusMonotone | python_api/services/points_service.py:125-131 | a longer streak never earns a smaller bonus |
| PointsService.CheckinMessage | python_api/services/points_service.py:146-148 | "签到成功！积分 +total", with the bonus note only when there is a bonus |
| PointsService.DailyCheckin | python_api/services/points_service.py:95-161 | a second check-in the same day gives success False with "今日已签到" and changes nothing; otherwise streak = yesterday's `consecutive_days` + 1 or 1, points = 5 + bonus, the check-in row is stored and the points are credited under the uncapped reason |
| PointsService.CheckinPointsRange | python_api/services/points_service.py:124-133 | a check-in earns 5, 8 or 15 points |
| PointsService.StreakContinues | python_api/services/points_service.py:115-121 | a streak continued from yesterday is one longer, and the next day continues it again |
| PointsService.SeventhDayMessage | python_api/services/points_service.py:146-148 | a seventh consecutive check-in reads "签到成功！积分 +15 (含连续签到奖励 +10)" |
| PointsService.StatusLevelsAreLevelPoints | python_api/services/points_service.py:187 | the service's own `levels` table equals `LEVEL_POINTS` |
| PointsService.GetUserStatus | python_api/services/points_service.py:163-215 | defaults (0 points, level 1, next 100) for a missing user; otherwise `points or 0`, `level or 1` and its name; `next_level_points` is the next level's threshold, or None at level 6; `streak_days` is today's count if checked in today, else yesterday's, else 0; a negative level raises the `KeyError` |
| PointsService.NextLevelAhead | python_api/services/points_service.py:186-192 | below the top level, the next threshold is still ahead of the user's points |
| UserService.ProfileOf | python_api/services/user_service.py:45-59 | the profile copies the row, with NULL points read as 0; a NULL or zero level reads as 1, and any other level is kept |
| UserService.GetUserById | python_api/services/user_service.py:19-61 | a profile exactly when the user exists, built by `ProfileOf` |
| UserService.GetPublicProfile | python_api/services/user_service.py:63-118 | a profile exactly when the user exists; `is_following` holds only for a truthy viewer who is not the profiled user and has the follow edge |
| UserService.OwnProfileNotFollowed | python_api/services/user_service.py:92 | a user never shows as following themself on their own profile |
| UserService.Override | python_api/services/user_service.py:139-157 | a supplied value replaces the field; None keeps it |
| UserService.Updated | python_api/services/user_service.py:136-175 | exactly the supplied fields change, along with `updated_at`; all other columns are unchanged |
| UserService.EmptyUpdateKeepsFields | python_api/services/user_service.py:159-161 | an update with no field would change nothing but `updated_at` |
| UserService.UpdateIdempotent | python_api/services/user_service.py:136-175 | applying the same update twice gives the row of one application |
| UserService.UpdateProfile | python_api/services/user_service.py:120-185 | with no field supplied nothing is written and the current profile is returned; otherwise an existing row gets the supplied fields and a fresh `updated_at`; a missing user yields None |
| UserService.AddPoints | python_api/services/user_service.py:213-255 | None for a missing user; otherwise the points are added and the level is written only when it is NULL or the computed level is higher, so it never drops |
| UserService.AddingNothingKeepsLevel | python_api/services/user_service.py:228-249 | adding no points never changes a level that already matches the points |
| EmailService.GenerateCode | python_api/services/email_service.py:21-31 | exactly `length` characters (none for a negative length), the i-th being the digit of the i-th random choice |
| EmailService.EveryCodeCanBeDrawn | python_api/services/email_service.py:31 | every string of digits is the code of some sequence of draws |
| EmailService.Latest | python_api/services/email_service.py:96-104 | `ORDER BY created_at DESC LIMIT 1`: the newest row satisfying the filter, with no later match; None exactly when nothing matches |
| EmailService.LatestIsAMatch | python_api/services/email_service.py:96-104 | the latest match exists exactly when some row matches |
| EmailService.Subject | python_api/services/email_service.py:129-135 | "register" selects the registration subject; any other purpose selects the reset-password subject |
| EmailService.Outcome | python_api/services/email_service.py:175-182 | the send succeeds exactly when the mail went out; a refused mail and a missing SMTP account are reported as their two failures |
| EmailService.SendVerificationCode | python_api/services/email_service.py:79-184 | refused with nothing inserted while the latest code for the same address and purpose is under 60 s old; otherwise one row with a six-digit code, unused and expiring `CODE_EXPIRE_MINUTES` later, is inserted and mailed with the purpose's subject |
| EmailService.ResendThrottle | python_api/services/email_service.py:94-112 | after a code is issued, the next request for the same target is refused exactly within 60 s |
| EmailService.OtherTargetsDoNotThrottle | python_api/services/email_service.py:96-104 | requests for another address or purpose never throttle this one |
| EmailService.VerifyCode | python_api/services/email_service.py:187-227 | succeeds exactly when some row matches email, code and purpose and is unused and unexpired; then the latest such row is marked used and nothing else changes; a failure writes nothing |
| EmailService.VerifyConsumesOne | python_api/services/email_service.py:216-223 | a successful verification uses up exactly one usable row |
| EmailService.SingleUse | python_api/services/email_service.py:205-223 | a code that was the only usable one cannot verify a second time, then or later |
| EmailService.LaterStillUnusable | python_api/services/email_service.py:205-214 | a row not usable now is not usable later |
| EmailService.IssuedCodeExpires | python_api/services/email_service.py:114-115 | a fresh code verifies until `CODE_EXPIRE_MINUTES` after issue and not from then on |
| WavEncoder.U16LE | pages/asr_test.js:52-57 | `setUint16(…, true)` writes two bytes |
| WavEncoder.U32LE | pages/asr_test.js:48-59 | `setUint32(…, true)` writes four bytes |
| WavEncoder.I16LE | pages/asr_test.js:66 | `setInt16(…, true)` writes two bytes |
| WavEncoder.Ascii | pages/asr_test.js:40-44 | one byte per character, the character code taken modulo 256 as `setUint8` does |
| WavEncoder.U16RoundTrip | pages/asr_test.js:52-57 | the little-endian u16 field reads back as the value modulo 2^16 |
| WavEncoder.U32RoundTrip | pages/asr_test.js:48-59 | the little-endian u32 field reads back as the value modulo 2^32 |
| WavEncoder.I16RoundTrip | pages/asr_test.js:66 | a 16-bit sample reads back as itself (two's complement) |
| WavEncoder.Frame | pages/asr_test.js:31-33 | frame src holds every channel's sample src, channel by channel |
| WavEncoder.InterleavedLength | pages/asr_test.js:29 | `interleaved.length == length × numberOfChannels` |
| WavEncoder.InterleavedPrefix | pages/asr_test.js:30-34 | later frames only extend the array |
| WavEncoder.InterleavedAt | pages/asr_test.js:32 | `interleaved[src × C + ch]` is channel ch's sample src |
| WavEncoder.Pcm | pages/asr_test.js:62-68 | the data chunk has two bytes per sample |
| WavEncoder.PcmAt | pages/asr_test.js:63-67 | sample i is the 16-bit field at 2 × i of the data chunk |
| WavEncoder.U32At | pages/asr_test.js:48 | a u32 field reads back from where it was written |
| WavEncoder.U16At | pages/asr_test.js:52 | a u16 field reads back from where it was written |
| WavEncoder.RiffDescriptor | pages/asr_test.js:47-49 | the RIFF descriptor is 12 bytes |
| WavEncoder.FmtChunk | pages/asr_test.js:50-57 | the "fmt " sub-chunk is 24 bytes |
| WavEncoder.DataChunkHeader | pages/asr_test.js:58-59 | the "data" sub-chunk header is 8 bytes |
| WavEncoder.Header | pages/asr_test.js:46-59 | the header is 44 bytes |
| WavEncoder.RiffLayout | pages/asr_test.js:47-49 | "RIFF" at 0, u32 36 + dataLength at 4, "WAVE" at 8 |
| WavEncoder.FmtLayout | pages/asr_test.js:50-57 | "fmt " at 12; u32 16 at 16; u16 1 (PCM) at 20; u16 channels at 22; u32 sampleRate at 24; u32 sampleRate × blockAlign at 28; u16 blockAlign = channels × 2 at 32; u16 16 at 34 |
| WavEncoder.DataLayout | pages/asr_test.js:58-59 | "data" at 36 and u32 dataLength at 40 |
| WavEncoder.WavLayout | pages/asr_test.js:21-68 | the file is 44 + length × C × 2 bytes, and channel ch's sample src is the 16-bit field at 44 + 2 × (src × C + ch) |
| WavEncoder.Interleave | pages/asr_test.js:29-34 | the nested loops fill a fresh array with `Interleaved` |
| WavEncoder.WriteString | pages/asr_test.js:40-44 | after `writeString`, the buffer's bytes at the offset are the string's bytes, and the bytes before and after them are unchanged |
| WavEncoder.SetBytes | pages/asr_test.js:48-59 | a DataView setter writes its bytes at the offset and keeps the bytes before and after them |
| WavEncoder.WriteHeader | pages/asr_test.js:46-59 | the first 44 bytes become `Header` and the bytes after them are unchanged |
| WavEncoder.WriteRiffDescriptor | pages/asr_test.js:47-49 | bytes 0 to 11 become "RIFF", 36 + dataLength and "WAVE", and the bytes after them are unchanged |
| WavEncoder.WriteFmtChunk | pages/asr_test.js:50-57 | bytes 12 to 35 become the "fmt " sub-chunk, and the bytes before and after them are unchanged |
| WavEncoder.WriteDataChunkHeader | pages/asr_test.js:58-59 | bytes 36 to 43 become "data" and dataLength, and the bytes before and after them are unchanged |
| WavEncoder.WriteSamples | pages/asr_test.js:62-68 | after the header, the buffer holds every sample as a 16-bit little-endian field at 44 + 2 × i |
| WavEncoder.AudioBufferToWav | pages/asr_test.js:15-71 | the returned buffer is exactly the header followed by the interleaved samples |
| EnvConfig.Environment.constructor | python_api/config.py:5 | os.environ starts as the given map |
| EnvConfig.Environment.SetDefault | python_api/config.py:72 | `os.environ.setdefault`: it raises exactly when the key is absent and putenv refuses the pair (an empty name, a name with '=', or a NUL), leaving the environment unchanged; otherwise the environment becomes `WithDefault` of the old one |
| EnvConfig.ParseLineSkips | python_api/config.py:67-69 | a line is skipped exactly when, stripped, it is empty, starts with '#' or holds no '=' |
| EnvConfig.ParseLineKey | python_api/config.py:70-72 | a key holds no '=' and no surrounding whitespace |
| EnvConfig.ParseLineValue | python_api/config.py:71 | a value neither starts nor ends with a single quote |
| EnvConfig.ParseLineSome | python_api/config.py:67-70 | a parsed line is the stripped line split at its first '=' |
| EnvConfig.StripValueEnds | python_api/config.py:71 | `value.strip().strip('"').strip("'")` leaves no single quote at either end |
| EnvConfig.TrimUnquoted | python_api/config.py:71 | `strip("'")` leaves no single quote at either end |
| EnvConfig.TrimKeepsAbsent | python_api/config.py:70-72 | stripping never introduces a character |
| EnvConfig.ParseLineOfPair | python_api/config.py:66-72 | writing `key=value` and reading the line back gives the pair, for any key and value that stripping keeps |
| EnvConfig.ParseOfStripped | python_api/config.py:67-70 | a stripped, non-comment line with its first '=' at i parses to the split at i |
| EnvConfig.SplitOfPair | python_api/config.py:70-72 | `key=value` splits into the stripped key and the stripped value |
| EnvConfig.PairLineStripped | python_api/config.py:67 | a `key=value` line of stripped parts is its own strip and not a comment |
| EnvConfig.StripValueFixed | python_api/config.py:71 | a plain value is unchanged by the value stripping |
| EnvConfig.EqualsIsNotWhitespace | python_api/config.py:67 | '=' is not whitespace for str.strip |
| EnvConfig.IndexAfterPrefix | python_api/config.py:70 | the first '=' of `key=value` is the one after the key when the key holds none |
| EnvConfig.WithDefault | python_api/config.py:72 | a setdefault that does not raise: the key is bound to its old value if it had one and to the new value otherwise; every other key is unchanged |
| EnvConfig.FirstValueAppend | python_api/config.py:66-72 | the first value of a key is unchanged by later lines once one line holds it |
| EnvConfig.LoadedKeepsAndTakesFirst | python_api/config.py:63-73 | nothing already set is overwritten, even when a line raises; when every line goes through, a key the environment lacks gets the value of its first line in the file, and a key is present afterwards exactly when it was before or some line holds it |
| EnvConfig.ApplyAt | python_api/config.py:72 | what one line does to one key: an existing value is kept, a new key takes the line's value, and a raising line changes nothing |
| EnvConfig.ApplyRaises | python_api/config.py:70-72 | a line raises exactly when it holds a pair whose key is absent and which putenv refuses |
| EnvConfig.EmptyKeyRaises | python_api/config.py:70-72 | a line `=value` has the empty key, so it raises unless the environment already holds that key |
| EnvConfig.LoadedStep | python_api/config.py:66 | loading one more line is one more setdefault, unless an earlier line raised |
| EnvConfig.LoadAfterFailure | python_api/config.py:66-72 | once a line has raised, the lines after it change nothing |
| EnvConfig.LoadStopsAtFirstRaise | python_api/config.py:66-72 | a load that does not go through stops at a line i: the lines before i go through, line i raises, and the environment is what the lines before i made of it |
| EnvConfig.FoldFirstFailure | python_api/config.py:66-72 | a loop whose body may raise stops at the first raising line, with the state the lines before it left |
| EnvConfig.LoadCompletes | python_api/config.py:66-72 | when putenv accepts every pair of the file, the load goes through |
| EnvConfig.LoadLine | python_api/config.py:67-72 | one loop pass applies the line's setdefault, and reports whether it raised |
| EnvConfig.LoadLines | python_api/config.py:66-72 | the `for line in f` loop leaves the environment as `Load` of the old one, ending at the first raising line |
| EnvConfig.FirstFile | python_api/config.py:58-64 | None exactly when no candidate exists; otherwise the text of an existing candidate |
| EnvConfig.NewlinesHaveNoReturn | python_api/config.py:65 | after the universal-newline translation of text mode, no '\r' is left |
| EnvConfig.NewlinesFixed | python_api/config.py:65 | text without a '\r' is read unchanged |
| EnvConfig.NewlinesAppend | python_api/config.py:65 | two stretches of a file translate separately, unless the first ends in '\r' and the second begins with '\n' |
| EnvConfig.NewlinesOfEnding | python_api/config.py:65-66 | each of "\n", "\r\n" and a lone "\r" ends a line and becomes one "\n" |
| EnvConfig.EndingBecomesNewline | python_api/config.py:65 | a line ending at the start of a text becomes one '\n' |
| EnvConfig.Lines | python_api/config.py:65-66 | no line that `for line in f` yields holds a '\n' or a '\r' |
| EnvConfig.ReturnEndsLine | python_api/config.py:65-66 | a file "A=1\rB=2" is read as the two lines "A=1" and "B=2" |
| EnvConfig.LoadEnvFile | python_api/config.py:56-73 | the first existing candidate's lines are loaded, and the loop breaks after it; with neither present the environment is unchanged; false when a line raised |
| EnvConfig.OnlyFirstFileRead | python_api/config.py:58-73 | with the local file present, the PHP API's file makes no difference |
| EnvConfig.GetEnv | python_api/config.py:40 | `os.getenv(key, default)`: the bound value if set, the default otherwise |
| EnvConfig.Lookup | python_api/config.py:42 | `os.getenv(key)`: Some exactly when set, holding the bound value |
| EnvConfig.UnsetIntKept | python_api/config.py:41 | an unset integer setting keeps its value, since `int(str(n)) == n` |
| EnvConfig.UnsetKeysFallBack | python_api/config.py:36-53 | with none of the keys set, load_from_env succeeds and keeps every attribute except DB_NAME, DB_USER, SMTP_USER and SMTP_PASSWORD, which become None |
| EnvConfig.ValidAfterLoad | python_api/config.py:75-79 | after a complete load, validate passes exactly when DB_NAME and DB_USER are set and non-empty |
| EnvConfig.Config.constructor | python_api/config.py:13-33 | the class attributes start at their declared defaults |
| EnvConfig.Config.LoadFromEnv | python_api/config.py:36-53 | the file is loaded first; a raising line of the file ends the call with no attribute changed; otherwise the attributes are reassigned from the new environment in source order, stopping at a malformed integer |
| EnvConfig.Config.ReadSettings | python_api/config.py:40-53 | the attributes become `FromEnv` of the old ones; those after a malformed integer keep their values |
| EnvConfig.Config.Validate | python_api/config.py:75-79 | an error exactly when DB_NAME or DB_USER is None or empty, carrying the source's message |
| PhpEnv.PathOf | php-api/common.php:18 | `$file ?: default`: the given path unless it is null, "" or "0" |
| PhpEnv.Chomp | php-api/common.php:20 | dropping the line ending removes exactly one trailing '\r' when there is one and nothing otherwise |
| PhpEnv.NonEmptyLines | php-api/common.php:20 | FILE_SKIP_EMPTY_LINES: no line is empty, and there are no more lines than pieces |
| PhpEnv.NonEmptyLinesAppend | php-api/common.php:20 | the lines of two stretches of pieces are the lines of the first, then those of the second, so the order of the file is kept |
| PhpEnv.NonEmptyLinesMember | php-api/common.php:20 | a line is kept exactly when it is a non-empty chomped piece |
| PhpEnv.Unquote | php-api/common.php:27-29 | a matching quote pair around a value of at least two bytes is removed; otherwise the value is unchanged |
| PhpEnv.ParsePhpLineSkips | php-api/common.php:22-24 | a line is skipped exactly when its trimmed text starts with '#' or it holds no '=' |
| PhpEnv.ParsePhpLineSome | php-api/common.php:23-26 | a parsed line is split at the first '=' of the raw line |
| PhpEnv.ParsePhpLineKey | php-api/common.php:23-25 | a key holds no '=' and no surrounding whitespace |
| PhpEnv.UnquoteQuoted | php-api/common.php:27-29 | one quote pair is removed, whatever lies between |
| PhpEnv.ParseQuotedPair | php-api/common.php:22-29 | writing `key="value"` or `key='value'` and reading the line back gives the pair, for any value at all |
| PhpEnv.PutAt | php-api/common.php:30-32 | what one line does to one key: set to its value, other keys unchanged |
| PhpEnv.LastLineWins | php-api/common.php:21-33 | a key is present afterwards exactly when it was before or some line holds it; the last such line's value wins; otherwise the old value stays |
| PhpEnv.AppliedPrefix | php-api/common.php:21 | one more line of the foreach is one more write |
| PhpEnv.Environment.constructor | php-api/common.php:30-32 | the process environment, $_ENV and $_SERVER start as the given maps |
| PhpEnv.Environment.Set | php-api/common.php:30-32 | putenv, `$_ENV[$key] = $val` and `$_SERVER[$key] = $val` bind the key in all three |
| PhpEnv.Environment.LoadLine | php-api/common.php:22-32 | one pass of the foreach applies the line's writes to all three maps |
| PhpEnv.Environment.LoadLines | php-api/common.php:21-33 | the foreach leaves each map as `Applied` of its old value |
| PhpEnv.Environment.LoadEnvLocal | php-api/common.php:17-34 | a missing file changes nothing; otherwise each map takes the file's lines in order |

## Left out

- Audio decoding, resampling, mono averaging and model inference (SenseVoice/api.py:85-114) are function parameters: they are float tensor work and foreign calls.
- `rich_transcription_postprocess` (SenseVoice/api.py:128) is a function parameter, because it is foreign code.
- The FastAPI response object and the CORS middleware are left out. A 400 response is modelled as its status and its detail text.
- SQL text, `psycopg` connections, commits and rollbacks are left out. Each statement is modelled by its effect on the `Database` fields.
- Exceptions a database raises for reasons other than a foreign key or a negative `LIMIT`/`OFFSET` are left out, such as a lost connection. So are the `except` branches that only turn them into `False` or `None`.
- Concurrent requests are left out: each service call runs alone.
- The leaderboard and dialect-statistics queries (points_service.py:228-263, post_service.py:288-297) are left out, as aggregation done inside the database.
- The other operations of the service files are not part of this model, e.g. `get_post_by_id` and its view counter, avatar upload and user search. They are request plumbing around a single query.
- Password hashing, JWT, the routes, the HTTP proxy to the ASR service and the PHP login and registration scripts are left out as I/O glue.
- Building the SMTP message, its MIME and base64 headers and the SMTP session (email_service.py:34-76) are left out. `send_email` is reduced to its outcome `Smtp`.
- `random.choices` is the `draw` parameter, so the model does not say codes are uniformly distributed.
- The HTML body of the verification mail is left out, because it only displays the code.
- `datetime.now()`, `NOW()` and `CURRENT_DATE` are the `now` and `today` parameters. Time zones are not modelled.
- WavEncoder.WriteSamples: the float clamping to [−1, 1] and the scaling to int16 (pages/asr_test.js:65-66) are not modelled. The samples are given as 16-bit integers, written as `setInt16` writes them.
- WavEncoder.AudioBufferToWav: the `Blob` wrapper (pages/asr_test.js:70) and the browser's `AudioBuffer` object are left out. The channels are a sequence of equally long sample sequences, and the result is the filled byte array.
- EnvConfig.Config: `CORS_ORIGINS` (python_api/config.py:23) is neither read from the environment nor used by any modelled operation, so it is not among the attributes.
- EnvConfig.LoadEnvFile: the two candidate paths are fixed strings rather than paths joined to `__file__`. The file's text is given already decoded; the universal-newline translation of text mode is modelled by `Newlines`.
- Text.ParseInt: Python `int()` also accepts non-ASCII Unicode digits. The model accepts ASCII digits only.
- EnvConfig.Environment.SetDefault: the refusals of POSIX `putenv` are modelled (an empty name, '=' in the name, NUL in name or value). Windows' rules and encoding errors are not. A `.env.local` that is not valid UTF-8 raises while it is read; that is not modelled either.
- AsrApi.TurnAudioToText: `resample`, `mono` and `infer` are total function parameters. An exception from `Resample` (SenseVoice/api.py:92-93), from `mean` or the `[0]` index (SenseVoice/api.py:96-99) or from `m.inference` (SenseVoice/api.py:106-114) escapes the handler and gives a 500 response. The model does not capture that response.
- NotificationService.ActorOf: the actor's `bio`, `hometown` and `dialect`, its follower and following counts (fixed at 0) and its `is_following` flag (fixed at False) (python_api/services/notification_service.py:84-99) are not fields of `Actor`.
- PointsService.DailyCheckin: a refused second check-in returns a dict with only `success` and `message` (python_api/services/points_service.py:111). The model's result record also carries `points` 0 and `streak` 0, which the source does not return.
- PhpEnv.Environment.Set: `putenv` with an empty or otherwise invalid name is not modelled; the binding is made in all three maps. In PHP 8 a line such as `=x` makes `putenv("=x")` throw a ValueError that nothing in common.php catches, so loading stops there with an uncaught error; the model instead binds the empty key and goes on. Which of `$_ENV` and `$_SERVER` PHP itself fills at start-up is not modelled either: the three maps start as given.
- `get_pdo` (php-api/common.php:35) and the rest of the PHP API are not part of this model.
- PointsService.AddPoints: the repository holds no schema for `points_history` or `user_checkins`, so the model assumes neither has a foreign key to `users`. For an unknown user id, add_points still appends a history row (the UPDATE of `users` changes nothing), and DailyCheckin also records the check-in row; with a foreign key those INSERTs would fail instead.
- PointsService.Clamped: add_points' second refusal (`if points == 0: return False`, points_service.py:54-55) can never fire. Past the first cap check, limit − today is positive, so the model has no separate branch for it.
- The Python call `Config.load_from_env()` at import time (python_api/config.py:83) is the caller's job in the model: construct a `Config` and call `LoadFromEnv` on it.
