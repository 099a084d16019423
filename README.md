# Talk-a-box playback policy in Dafny

This project models the playback policy of a CircuitPython button-triggered
audio player. A press of a button plays one clip, chosen at random from the
clips not yet played in the current cycle. When every clip has been played,
the pool of remaining clips is refilled from the master list.

The model has four modules, leaf first:

- `Seqs` (`seqs.dfy`): the duplicate-free and subset predicates on sequences.
- `Catalog` (`catalog.dfy`): Python's `f"{i:04d}"` zero padding, the path
  `"/audio/" + pad4(i) + ".wav"` of clip `i`, and the loop that builds the
  master list for `i` in `1..NUM_AUDIO_FILES`.
- `DrawPool` (`draw_pool.dfy`): removing the drawn entry (`pool.pop(idx)`),
  and a run of draws without replacement.
- `Controller` (`controller.dfy`): falling-edge detection on the button, one
  iteration of the main loop as the pure function `Poll`, a finite run of the
  loop as `Run`, and the class `Player`.
  `Player` holds the master list, the pool, the last button level and the
  output's `playing` flag. Its methods update these fields in place. `OnPoll`
  and `RunLoop` are proved to change the state exactly as `Poll` and `Run`
  do. `Refill` sets the pool to the master list, and `RemoveAt` sets it to
  `Remove` of the old pool. `Play` ties whether it stopped the output to the
  outcome.

The random index from `random.randrange(len(pool))` is an argument `idx`.
A precondition (`IdxOk`) requires it to be in range whenever the poll draws.
The result of opening and playing a file is an `Outcome` argument:
`Completed`, `OSFailure` (caught by `except OSError`) or `OtherFailure`
(caught by `except Exception`). The failures carry whether the output was
left playing. For these outcomes the pool and the button state do not
depend on the outcome.

`BuildMaster` accepts any count. `range(1, n + 1)` is empty for `n < 1`
(code.py:26), so a count below one yields `[]` and is not rejected.

## Model

| member | source | states |
|---|---|---|
| `Catalog.ZeroPad4` | code.py:27 | The padded index is all decimal digits, ends with the index's decimal numeral, and is exactly `max(4, digits of i)` wide: zeros are added only up to four characters |
| `Catalog.PathFor` | code.py:27 | A clip's path starts with the folder and ends with `.wav` |
| `Catalog.ZeroPad4RoundTrip` | code.py:27 | Reading the padded numeral back gives the index, for every index |
| `Catalog.ZeroPad4Digits` | code.py:27 | For indices 1..9999 the padded part is exactly four digits whose value is the index |
| `Catalog.PathForInjective` | code.py:27 | Distinct indices give distinct paths |
| `Catalog.ConfiguredPaths` | code.py:20-27 | With folder `/audio/` and 41 files, the first path is `/audio/0001.wav` and the last is `/audio/0041.wav` |
| `Catalog.CatalogDistinct` | code.py:25-27 | A list whose entry `k` is the path of clip `k + 1` has no duplicates |
| `Catalog.BuildMaster` | code.py:25-27 | The loop yields `max(n, 0)` entries; entry `k` is the path of clip `k + 1`; no entry repeats |
| `DrawPool.Remove` | code.py:107 | `pop(idx)` shortens the pool by one, removes one copy of `pool[idx]` from its multiset, and keeps the other entries in order |
| `DrawPool.RemoveKeepsInvariant` | code.py:107 | Removing an entry keeps the pool duplicate-free and inside the master list; the drawn path is in the master list and is no longer in the pool |
| `DrawPool.DrawAll` | code.py:82-107 | After `k` draws, `k` paths have been drawn and the pool has lost `k` entries |
| `DrawPool.DrawAllPermutes` | code.py:82-107 | The drawn paths plus the remaining pool are a permutation of the pool before the draws |
| `DrawPool.DrawAllDistinct` | code.py:82-107 | From a duplicate-free pool no path is drawn twice and no drawn path stays in the pool |
| `DrawPool.FullCycle` | code.py:82-107 | As many draws as the pool has entries empty the pool and yield every entry exactly once |
| `Controller.IsPress` | code.py:72 | The edge test: the current level is low and the last level was high |
| `Controller.PressTable` | code.py:72 | A press is exactly the pair (last high, current low); a button held low does not fire twice |
| `Controller.Candidates` | code.py:76-80 | The pool a press draws from is empty exactly when both the pool and the master list are empty |
| `Controller.Poll` | code.py:69-115 | One loop iteration: it keeps the master list and stores the level read; it reports no press exactly when the edge test fails, and nothing to play exactly on a press with nothing to draw from; a play draws from the pool (refilled if empty) and shortens it by one; otherwise the pool is unchanged. `PollWithoutPress`, `PollNothingToPlay`, `PollDraws` and `PollKeepsInv` state the rest |
| `Controller.PollWithoutPress` | code.py:72-115 | A poll that is not a press plays nothing and changes only the remembered button level |
| `Controller.PollNothingToPlay` | code.py:76-111 | A press with an empty pool and an empty master list plays nothing and leaves the pool empty |
| `Controller.PollDraws` | code.py:76-107 | A press that draws plays `candidates[idx]`, a master path, refilling first exactly when the pool was empty; the new pool is the old one without that entry and is one shorter |
| `Controller.PollKeepsInv` | code.py:68-116 | Every poll keeps the pool a duplicate-free subset of the master list, keeps the master list, and stores the level just read |
| `Controller.Run` | code.py:68-116 | A run of the loop reports one result per poll |
| `Controller.RunKeepsInv` | code.py:68-116 | The invariant and the master list survive any finite run of the loop |
| `Controller.ClickOnce` | code.py:72-115 | A press on a non-empty pool plays `pool[idx]` without refilling; the release that follows does nothing |
| `Controller.ClicksDraw` | code.py:72-115 | Presses and releases that never find the pool empty draw exactly as `DrawAll` does and never refill |
| `Controller.RunWithoutPlays` | code.py:68-116 | A run of polls that plays nothing leaves the pool and the master list unchanged and never refills |
| `Controller.RunDrawsWithoutReplacement` | code.py:68-116 | Over any sequence of polls (idle, held or pressed), while no more plays happen than the pool (refilled if empty) holds: the played paths are distinct, and with the final pool they are a permutation of that pool; only the first play can refill, and it refills exactly when the pool started empty |
| `Controller.FullCycleOfPresses` | code.py:68-116 | From a pool that is full or empty, any sequence of polls with N = number of master paths >= 1 plays: they are distinct, play each master path exactly once, and leave the pool empty, so the next cycle starts the same way. The first play refills exactly when the pool started empty. The first press after the button is next seen released refills again |
| `Controller.CycleOfClicks` | code.py:72-115 | The special case of strictly alternating press and release polls from a full pool: the results alternate between a play without refill and a no-op release. The N plays cover each master path once and empty the pool, and the next press refills |
| `Controller.Player.constructor` | code.py:25-66 | Start-up builds the master list of the configured size, fills the pool with it, and records the button as released |
| `Controller.Player.Refill` | code.py:54-58 | The pool becomes equal to the master list, which is unchanged |
| `Controller.Player.Play` | code.py:88-103 | Whatever the outcome, the output is not playing afterwards; it is stopped exactly when a failure left it playing |
| `Controller.Player.RemoveAt` | code.py:107 | The pool becomes `Remove(old pool, idx)` |
| `Controller.Player.OnPoll` | code.py:69-115 | One loop iteration changes the state exactly as `Poll` does, whatever the playback outcome, and keeps the invariant |
| `Controller.Player.RunLoop` | code.py:68-116 | The loop over a finite list of polls changes the state and reports results exactly as `Run` does |

## Left out

- I2S output set-up and the endless sleep when it fails (code.py:32-43): hardware driver start-up and a loop that never ends.
- Button pin configuration (code.py:46-48): hardware I/O. The level read from the pin is an argument to `OnPoll`.
- Opening the file, decoding it and the busy-wait while the output plays (code.py:89-93): filesystem and audio driver calls. Their result is the `Outcome` argument.
- `time.sleep` delays and all `print` logging: timing and console output only. The "no audio files" log line appears as the result `NothingToPlay`.
- The randomness and uniformity of `random.randrange` (code.py:82): this needs probability. The draw is an in-range index given by the caller.
- The outer `while True` (code.py:68): it never ends. One iteration is `OnPoll`, and finite runs are `RunLoop` and `Run`.
- Exceptions that neither `except` clause catches (code.py:95-99): a `BaseException` that is not an `Exception`, such as `KeyboardInterrupt` or `SystemExit`, or an exception raised inside the `finally` block (code.py:101-102). These leave the loop before the `pop` at code.py:107 and end the program. `Outcome` covers only the outcomes the two `except` clauses catch.
- Closing the file handle at the end of the `with` block: file handles are not modelled.
