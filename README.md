# Spaced-repetition session scheduler, modelled in Dafny

This project models `CoreLogic`, the scheduler of a vocabulary drill. The
scheduler handles one study session for one learner:

- Construction builds the proficiency store from a word list and a stored
  proficiency map.
- It then draws the day's queue: up to `day_new` never-mastered words, then
  partly-learned words up to `day_cap`. Every queued word starts UNKNOWN.
- Answers move each word through the status machine. A correct answer
  follows the `know_trans` table. A wrong answer makes the word BAD.
- `update_memory` credits each word that reached GOOD to the store, once
  per session.
- `next_group` returns the per-status counts and up to `group_size` words
  to test. It serves only BAD words when there are more than `max_bad` of
  them, or when nothing UNKNOWN or WANTING is left. Otherwise it serves the
  UNKNOWN and WANTING words. It returns an empty group once every word is
  GOOD.

Files and modules:

- `sequences.dfy` (`Sequences`): distinctness, Python's `s[:n]` slice, and
  the two shuffles. A shuffle is a nondeterministic choice inside a loop,
  so every permutation is a possible outcome. Every property below is proved
  for all of them.
- `status.dfy` (`Status`, `Settings`): the four statuses, `know_trans`, the
  counting behind `count_progress`, the candidate rule of `next_group`, and
  `Config` with its defaults (14, 7, 100, 50, 3).
- `proficiency.dfy` (`Proficiency`): the effective store, the day queue, and
  `update_memory`'s crediting as functions on values. `CommitAll` describes
  a whole session of commits.
- `logic.dfy` (`Logic`): class `CoreLogic`. Its mutable fields are `memory`,
  `updated` and `progress`. The insertion order of the source's ordered
  dictionary is the field `order`. The word list and the configuration are
  `const` fields. The `wordlist`, `memory` and `progress` accessors of the
  source are these fields.
- `scenarios.dfy` (`Scenarios`): a caller's session of three new words,
  proved from the class contracts alone. All three are scheduled and served
  in one group, then mastered and credited once. One is then unlearned and
  needs two correct answers to be GOOD again. Committing after that credits
  it no second time.

Three behaviours of the code are easy to miss. The model keeps all three
as written:

- `i_dont_know` on a word outside the session does not fail. The
  dictionary assignment at logic.py:90 appends the word to the end of
  `progress` with status BAD, and `Logic.CoreLogic.IDontKnow` does the same.
- The old-word bound `day_cap - len(day_new_words)` (logic.py:51) is
  negative when more than `day_cap` new words are taken, which needs
  `day_new > day_cap`. Python then slices off the END of the list instead
  of taking nothing. `Sequences.SliceTo` models that, and
  `Proficiency.DaySizeOverrun` exhibits a queue longer than `day_cap`.
  The cap holds whenever `day_new <= day_cap`, which the defaults satisfy.
- The store keeps memory keys that are absent from the word list. Such a
  word can be scheduled. `next_group` then fails on the text lookup at
  logic.py:127. The model returns that failure as `Failure(word)` and
  does not forbid it at construction.

## Model

| member | source | states |
|---|---|---|
| `Status.KnowTrans` | logic.py:24-28 | a correct answer leads to GOOD or WANTING, and to WANTING exactly from BAD; there is no transition from GOOD |
| `Status.KnowTransStep` | logic.py:24-28 | each correct answer brings a word one step closer to GOOD: one answer from UNKNOWN or WANTING, two from BAD |
| `Status.Count` | logic.py:96 | a status count never exceeds the number of words, and is zero exactly when no word holds that status |
| `Status.CountsCover` | logic.py:96-102 | the four status counts add up to the number of words |
| `Status.Tally` | logic.py:92-102 | the four counts of `count_progress` sum to the number of words counted |
| `Status.CountIsFilterLength` | logic.py:96-118 | a status count equals the length of the list filtered to that status, the pool `next_group` draws from |
| `Status.CountIsCardinality` | logic.py:96-102 | on a duplicate-free list each count is the number of its words holding that status |
| `Status.WithStatus` | logic.py:114-118 | the candidate list holds exactly the listed words whose status is among the kept ones |
| `Status.WithStatusDistinct` | logic.py:114-118 | the candidate list of a duplicate-free queue has no duplicates |
| `Status.Candidates` | logic.py:111-118 | the statuses `next_group` draws from never include GOOD; they are BAD alone exactly when there are more than `max_bad` BAD words or nothing is UNKNOWN or WANTING, and UNKNOWN with WANTING otherwise |
| `Status.CandidatesEmptyWhenFinished` | logic.py:107-118 | the candidate pool is empty exactly when no word is BAD, WANTING or UNKNOWN |
| `Sequences.SliceTo` | logic.py:50-51 | defines Python's `s[:n]`: the prefix of `s` of length min(n, len) for n >= 0, and max(0, len + n) for negative n; the caps it yields are proved in `Proficiency.DayWords` and `Proficiency.DaySizeWithinCap` |
| `Sequences.Shuffle` | logic.py:53 | `shuffle` yields a permutation of its input (same multiset, same length) |
| `Sequences.Arrange` | logic.py:43-48 | the filtered-and-shuffled word list holds each chosen word exactly once |
| `Settings.DefaultsWithinCap` | logic.py:14-19 | the default `Config` takes at most `day_cap` new words, serves at least one word per group and has room for old words (`max_mem` above 1) |
| `Proficiency.NewWords` | logic.py:45-46 | the new words are keys of the store (those at proficiency 0) |
| `Proficiency.OldWords` | logic.py:43-44 | the old words are keys of the store (those strictly between 0 and `max_mem`) |
| `Proficiency.PoolsDisjoint` | logic.py:43-46 | no word is both new and old, and there are no old words when `max_mem` is at most 1 |
| `Proficiency.Effective` | logic.py:34-35 | the store has every word of the word list and every supplied key; supplied values win, other words start at 0 |
| `Proficiency.DayWords` | logic.py:41-53 | the day queue has no duplicates and only words at proficiency 0 or strictly between 0 and `max_mem`; it holds min(`day_new`, #new) new words, so all new words once they fit; its length is the slice arithmetic of the source, at most `day_cap` when `day_new <= day_cap` |
| `Proficiency.DaySizeWithinCap` | logic.py:50-52 | with `day_new <= day_cap` the queue length is min(`day_cap`, new taken + old available) |
| `Proficiency.DaySizeOverrun` | logic.py:50-51 | with `day_cap` 1, `day_new` 3 and three new and three old words, four words are scheduled |
| `Proficiency.Commit` | logic.py:79-83 | one `update_memory` on values: the store keeps its keys, no word loses a credit, every GOOD word is credited afterwards, and no proficiency falls or rises by more than 1 |
| `Proficiency.CommitCredits` | logic.py:79-83 | one commit records every GOOD word as credited, raises a GOOD uncredited word by exactly 1, and leaves every other entry and the set of keys unchanged |
| `Proficiency.CommitIdempotent` | logic.py:79-83 | a second commit with no status change in between changes neither the store nor the credited set |
| `Proficiency.CommitAllCreditsOnce` | logic.py:79-83 | over any number of commits, a word gains exactly 1 when it was GOOD at some commit and had not been credited before, otherwise nothing, so a word that regresses and returns to GOOD is not credited again; it is credited exactly when it was GOOD at some commit or already credited |
| `Logic.CoreLogic.constructor` | logic.py:30-57 | the store is the effective store and nothing is credited; the queue has no duplicate keys and every status is UNKNOWN; it holds min(`day_new`, #new) new words and its length is the source's slice arithmetic (at most `day_cap` given `day_new <= day_cap`); every queued word has proficiency 0 or strictly between 0 and `max_mem`; a missing configuration means the defaults |
| `Logic.CoreLogic.CountProgress` | logic.py:92-102 | the four counts sum to the size of `progress`, each equals the number of entries with that status, and the unknown, bad and wanting counts are all zero exactly when every word is GOOD |
| `Logic.CoreLogic.UpdateMemory` | logic.py:79-83 | the new store and credited set are one commit of the old ones: every GOOD word is credited afterwards, and each GOOD word not credited before gains exactly 1; the statuses, the queue and the store's keys do not change |
| `Logic.CoreLogic.IKnow` | logic.py:85-87 | on a queued word that is not GOOD, its status follows `know_trans`; no other status, the store and the credited set do not change |
| `Logic.CoreLogic.IDontKnow` | logic.py:89-90 | the word becomes BAD whatever its status; no other status, the store and the credited set do not change; an unqueued word is appended to the queue |
| `Logic.CoreLogic.NextGroup` | logic.py:104-128 | returns the current counts; the group is empty when every word is GOOD, and with `group_size > 0` only then; otherwise it holds min(`group_size`, pool size) distinct words, each from the candidate pool (all BAD when bad > `max_bad` or nothing is UNKNOWN or WANTING, else UNKNOWN or WANTING) with its text from the word list; it fails only on a drawn pool word without text, never when every pool word has a text, always when the whole pool fits in one group and some pool word has no text, and never when `group_size` is 0 |

## Left out

- Randomness: each `random.shuffle` (logic.py:47-48, 53, 121) is an arbitrary permutation. Its uniformity and seeding are not modelled.
- The `memory=None` default: `dict.update(None)` raises at logic.py:35, so the constructor takes a map and invents no default.
- Iteration order of the source's dictionaries before a shuffle is not modelled. The model picks an arbitrary order, which the shuffle makes irrelevant.
- Configuration thresholds are natural numbers. Negative or non-integer thresholds, which would change Python's slicing and the `k == group_size` test, are not modelled.
- Proficiencies are unbounded integers. Python's ints have no overflow either.
- The returned dictionaries `{'word': ..., 'text': ...}` are `Logic.Card` values.
- Aliasing: the constructor keeps the caller's `wordlist` by reference (logic.py:31), so the text lookup at logic.py:127 sees later edits the caller makes; the `memory` and `progress` accessors (logic.py:65-77) hand out the live dictionaries, so a caller can change the store or the session through them. The model's `const wordlist` and value-typed `memory` and `progress` have none of this aliasing.
- Logic.CoreLogic.UpdateMemory: requires the store to hold every GOOD word it must credit. The source raises a KeyError on such a word partway through the loop, after crediting earlier words, and that partial update is not modelled. A word can only lack a store entry after `i_dont_know` appended it.
- Logic.CoreLogic.IKnow: requires the word to be queued and not GOOD, the source's KeyError and assertion. The failure itself is not modelled.
