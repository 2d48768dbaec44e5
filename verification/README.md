# English THALA tutoring bot — a Dafny model of its core

The bot sends a Telegram user a daily bundle of English practice (a grammar
question, a vocabulary word, a puzzle and a mini lesson) chosen for the
user's level, waits for a reply of the form `<grammar answer> || <puzzle answer>`,
scores it, and updates the user's profile: level, score, streak and the day
the user was last active.

This project models that core:

- `text.dfy` (module `Text`): the Python string built-ins the scoring relies
  on — `str.strip()`, `str.lower()`, `"||" in s` and `s.split("||", 1)` — on
  ASCII text, with their defining properties proved (strip removes exactly the
  surrounding whitespace; split cuts at the first separator and joining the
  two fields again gives the input back).
- `database.dfy` (module `Database`): the `users` table as a class
  `ProfileStore` holding a `map<int, Profile>`. `AddUser`, `IncrementScore`,
  `UpdateLastActiveAndStreak` and `SetLevelByScore` are methods whose
  postconditions give the whole new table as a function of the old one
  (`Added`, `ScoreAdded`, `Touched`, `Leveled`); those functions state which
  row and which field they change and that an unknown id changes nothing.
  The streak state machine is `Touch`, the level step function `LevelFor`.
- `bot.dfy` (module `Bot`): level-filtered content choice
  (`ChooseForLevel`), the daily bundle and its answer key (`DailyPayload`),
  the reply parser and scorer (`ParseReply`, `Gained`), and the reply handler
  as a function of the state it reads and writes (`Evaluate`). The class
  `Tutor` holds the store, the catalog and the per-user pending answer keys;
  its `Start`, `Daily` and `CheckAnswer` methods perform the source's steps
  in the source's order and are proved equal to those functions. They also
  keep the invariant "every pending key belongs to a known user, and every
  stored level is the level its score earns".

Dates are day numbers and the current day is a parameter. The random draw of
`random.choice` is a parameter `pick`: the pool is indexed at
`pick % |pool|`, and `ChooseForLevelReachesEvery` shows that every item the
policy allows is drawn for some pick.

Behaviours of the code that the model keeps:

- A new profile gets `last_active = today` and `streak = 0`
  (database.py:25-27). An answer on the creation day therefore hits the
  "same day" branch, and the streak stays 0 (`CreationDayStreak`). The first
  activity on any later day gives streak 1.
- An item with no `level` tag fits every level (bot.py:41).
- A reply with an empty field, or with more than one `||`, is accepted. It is
  split at the first `||`, and the rest stays in the puzzle field
  (bot.py:127).
- A reply from a user whose row is missing makes `user[3]` raise before the
  pending key is removed (bot.py:142-151). This is `Reply.Failed` with the
  state unchanged. `EvaluatePreservesInvariant` shows that it cannot happen
  while the invariant holds.
- An expected answer missing from the JSON compares as the text "None", as
  `str(None)` does, so the reply "none" matches it (`Display`).

## Model

| member | source | states |
|---|---|---|
| Text.Lower | bot.py:132-135 | `lower()` keeps the length, maps each upper-case letter A-Z to its lower-case letter (code + 32) and changes no other character |
| Text.LowerEqualIff | bot.py:132-135 | two texts are equal after `lower()` exactly when they are equal position by position up to ASCII case |
| Text.TrimStart | bot.py:121 | no longer than the input; the characters dropped from the front are all whitespace and the result does not start with whitespace |
| Text.TrimStartSuffix | bot.py:121 | what is kept is exactly the rest of the input after the dropped characters |
| Text.TrimEnd | bot.py:121 | the result is the longest prefix of the input that does not end with whitespace; everything dropped is whitespace |
| Text.Trim | bot.py:127 | `strip()` is no longer than its input and has no whitespace at either end |
| Text.TrimPadded | bot.py:121 | `strip()` of whitespace + x + whitespace is exactly x when x has no whitespace at its ends |
| Text.FindSep | bot.py:123 | the index returned starts a `\|\|` and no earlier index does; None exactly when the text holds no `\|\|` |
| Text.SplitFirst | bot.py:127 | `split("\|\|", 1)` succeeds iff the text holds `\|\|`; head + `\|\|` + tail is the input, and no `\|\|` starts inside the head |
| Text.SplitJoin | bot.py:127 | splitting a + `\|\|` + b gives back (a, b) whenever no `\|\|` starts in a; separators in b stay in b |
| Database.LevelFor | database.py:65-71 | Beginner iff score < 10, Advanced iff score >= 25, Intermediate otherwise |
| Database.LevelForMonotone | database.py:66-71 | a higher score never earns a lower level |
| Database.LevelForSteps | database.py:66-71 | 0 and 9 are Beginner, 10 and 24 Intermediate, 25 Advanced |
| Database.NewProfile | database.py:25-27 | a created row has the given name, level Beginner, score 0, streak 0, is last active on the creation day, and is consistent |
| Database.Touch | database.py:47-57 | same day: row unchanged; last active yesterday: streak + 1; any other day, future ones included: streak 1; afterwards last active is today and name, level and score are unchanged |
| Database.TouchIdempotent | database.py:49-50 | a second activity on the same day changes nothing |
| Database.CreationDayStreak | database.py:25-57 | a user created on day d and active on d keeps streak 0; first activity on any other day gives streak 1 |
| Database.StreakScenario | database.py:49-57 | after a gap: day d gives 1, d again stays 1, d + 1 gives 2, d + 3 resets to 1 |
| Database.Added | database.py:23-28 | adds the key only if absent, with a fresh row; every existing row is left as it was |
| Database.AddedIdempotent | database.py:24-27 | `add_user` twice equals `add_user` once, whatever name and day the second call carries |
| Database.ScoreAdded | database.py:34-41 | score of the id grows by delta, no other field or row changes, an unknown id changes nothing |
| Database.Touched | database.py:43-59 | the id's row becomes `Touch` of the old row (one streak step); only streak and last-active change; an unknown id or a same-day activity changes nothing |
| Database.Leveled | database.py:61-74 | the id's level becomes LevelFor(score); only the level changes; an unknown id changes nothing |
| Database.LeveledIdempotent | database.py:72-73 | recomputing the level twice equals once |
| Database.ProfileStore.GetUser | database.py:19-21 | returns the row iff the id has one |
| Database.ProfileStore.AddUser | database.py:23-28 | the new table is `Added` of the old one |
| Database.ProfileStore.IncrementScore | database.py:34-41 | the new table is `ScoreAdded` of the old one; returns the new score, or None for an unknown id |
| Database.ProfileStore.UpdateLastActiveAndStreak | database.py:43-59 | the new table is `Touched` of the old one; returns the resulting streak, or None for an unknown id |
| Database.ProfileStore.SetLevelByScore | database.py:61-74 | the new table is `Leveled` of the old one; returns the level written, or Beginner for an unknown id |
| Bot.Fits | bot.py:41 | `i.get("level", level) == level` holds exactly when the item is untagged or tagged with the level |
| Bot.Candidates | bot.py:41 | an item is a candidate iff it is in the list and is untagged or tagged with the level |
| Bot.ChooseForLevel | bot.py:40-42 | the choice is an item of the list, and it fits the level whenever some item does |
| Bot.ChooseForLevelReachesEvery | bot.py:41-42 | every fitting item, or every item when none fits, is chosen for some draw |
| Bot.LevelOf | bot.py:46-47 | a known user is served the level stored in the row; an unknown user is served Beginner content |
| Bot.DailyPayload | bot.py:45-68 | each bundle item comes from its catalog and fits the level when one can; the key holds exactly the grammar and puzzle answers of the bundle |
| Bot.Display | bot.py:132-134 | `str()` of a present answer is the answer; the text is "None" exactly when the answer is missing or is itself "None" |
| Bot.MatchesIgnoresCase | bot.py:132-134 | a reply field matches exactly when it equals the expected answer's text up to ASCII case |
| Bot.Gained | bot.py:130-135 | at most 2 points; 2 iff both fields match, 0 iff neither, matching being equality after lowercasing both sides |
| Bot.ParseReply | bot.py:121-127 | no fields iff the stripped message holds no `\|\|`; both fields come back stripped |
| Bot.ParseReplyFields | bot.py:121-127 | the fields are the stripped text before the first `\|\|` and after it; empty fields are accepted |
| Bot.FullCreditExample | bot.py:121-135 | the reply `"  b \|\|   answer1  "` earns 2 points against the key ("B", "Answer1") |
| Bot.Settle | bot.py:137-141 | score rises by exactly the points gained; level is recomputed only when points were gained; the streak step always happens; other rows are unchanged |
| Bot.SettleConsistent | bot.py:137-141 | a consistent row stays consistent through these writes |
| Bot.Evaluate | bot.py:115-151 | no pending key, or no `\|\|`: nothing changes; a scored reply removes the pending key, reports the new score, level and streak, and touches no other user |
| Bot.EvaluateWellFormed | bot.py:127-151 | the outcome of a well-formed reply, for a known and an unknown user |
| Bot.EvaluatePreservesInvariant | bot.py:137-151 | pending keys of known users and level == LevelFor(score) survive every reply, and the missing-row failure never occurs |
| Bot.EvaluateIsolatesUsers | bot.py:115-151 | a reply changes neither another user's row nor another user's pending key |
| Bot.Tutor.Start | bot.py:74-78 | creates the caller's profile if absent and keeps the invariant |
| Bot.IssueKeepsInvariant | bot.py:101-107 | `add_user` followed by a new pending key for the same user keeps the invariant |
| Bot.Tutor.Daily | bot.py:101-107 | creates the profile if absent, returns `DailyPayload` for the stored level, and replaces the pending key with its answers; keeps the invariant |
| Bot.Tutor.Score | bot.py:130-135 | the points the scoring lines add up are `Gained` of the key and the two fields |
| Bot.Tutor.Record | bot.py:137-142 | the writes `increment_score` and `set_level_by_score` (only when points were gained), then `update_last_active_and_streak`, leave the table at `Settle` of the old one; the row read back and the streak are the new ones |
| Bot.Tutor.CheckAnswer | bot.py:115-151 | the reply, the new table and the new pending keys are exactly `Evaluate` of the old state; the invariant is kept |

## Left out

- Telegram wiring: handlers, `Updater`, polling, reply texts and Markdown, `/help` and `main` (bot.py:74-199 beyond the steps modelled). This is transport and I/O.
- `/score`, `/level`, `/streak` (bot.py:154-175): each is a `get_user` lookup, which is `ProfileStore.GetUser`, followed by a reply text.
- Bot.Tutor.Daily: requires catalogs in which every item carries the fields the daily text reads (`Catalog.Loaded`); a catalog item without them makes `format_daily_payload` raise KeyError after `add_user` and before the pending key is written (bot.py:57-60, 103-107), and that path is not modelled.
- The token check, logging setup and JSON file loading (bot.py:12-34). These are environment and file I/O. The catalogs are a parameter of `Tutor`.
- The presentation text of the daily bundle (bot.py:55-63). Only the chosen items and the answer key are modelled.
- The SQLite connection, `CREATE TABLE` and `commit` calls (database.py:4-17). The table is an in-memory map.
- `update_user_field` (database.py:30-32). It is unused, and it builds SQL from a column name.
- `random.choice` as randomness: the draw is the parameter `pick`.
- `ChooseForLevel`, `DailyPayload`, `Tutor.Daily`: an empty catalog makes `random.choice` raise IndexError; the model requires non-empty catalogs instead.
- Unicode semantics of `str.lower()` and `str.strip()`: the model lowercases A-Z only and strips ASCII whitespace only.
- JSON values other than strings: an expected answer is a string or missing, and a missing one compares as `"None"`, as `str(None)` does. An answer given as a number, or a non-string `level` tag, is not modelled.
- Calendar dates and ISO formatting: dates are day numbers. `update_last_active_and_streak` reads the clock twice (database.py:48, 52), so a call at midnight can mix two days; the model uses one `today`.
- `add_user`'s `username or ''` for a missing name: every caller already passes a string.
- The pending slot lives in `context.user_data`, keyed by Telegram user, while the table is keyed by chat id. The model keys both by one id, as in a private chat.
- Concurrency: the shared SQLite connection has no locking to model.
