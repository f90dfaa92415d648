# SunshineMushroom auto-collector, modelled in Dafny

SunshineMushroom is a small bot for Plants vs. Zombies (class `PVZAutoBot` in
`main.py`). It watches the game window and looks for sun and silver-coin
markers in each screenshot. Each marker it finds gets a click, but the bot
backs off as soon as a human moves the pointer. This project models the bot's
decision logic and proves properties about it:

- **Matcher** (`find_template`): raw match offsets become screen-space centres
  (`x + w/2 + left`, `y + h/2 + top`). The offsets are visited in the row-major
  order that the score map gives. A greedy pass keeps a centre only when its
  Euclidean distance to every centre kept before it is at least 20 pixels. On
  integers, `sqrt(d) < 20` is exactly `d < 400`, so the model needs no reals.
- **Dispatcher** (`collect`): it reads the pointer and records that position as
  the original. Without a template or without hits it returns false. Otherwise
  it clicks each hit in order. Before each click it aborts (returns false, no
  restore) if the pointer moved more than 10 pixels (Manhattan) from the latest
  reference. If every hit was clicked, it moves the pointer back to the
  original and returns true.
- **Debug flag**: the hotkey sets a flag. The next capture saves its screenshot
  once and clears the flag.

Files:

- `screen.dfy` (module `Screen`): value types (points, offsets, template size,
  window region), the two pixel constants and the distance functions.
- `matcher.dfy` (module `Matcher`): the greedy deduplication as the function
  `Dedup`, and its properties. These are pairwise separation, order-preserving
  subsequence, first candidate kept, prefix stability and coverage.
- `platform.dfy` (module `Platform`): the OS pointer as class `Mouse`. The k-th
  `position()` call returns `samples(k)`, an oracle, because a human may move
  the pointer at any moment. Clicks and moves are appended to a trace.
- `dispatch.dfy` (module `Dispatch`): what one `collect` batch does, as
  functions of the hits and the oracle (`CollectSucceeds`, `CollectTrace`,
  `CallsUsed`), with lemmas for completion, interruption and restore.
- `bot.dfy` (module `Bot`): class `PVZAutoBot`, whose methods update the bot's
  fields and the mouse. Each one is proved against the functions above.

The pointer reads inside one batch are numbered from `o`, the index of the
first read:

- read `o` is the original position;
- read `o + 1 + 2j` is taken just before click `j`;
- read `o + 2 + 2j` is taken just after click `j`.

So the reference for click `j` is read `o + 2j`. That is the original position
for the first click, and the read after the previous click for later ones.

Two points about what the code does and does not do:

- One might expect a higher match threshold to only shrink the hit set. The
  code does not guarantee this: dropping candidates from the list handed to
  the greedy pass can bring in a hit that the longer list did not produce.
  `Matcher.DedupNotMonotone` exhibits such a list.
- `find_template` reads `game_window['left']` inside its per-candidate loop
  without checking for a missing window. With a template present and no
  window, it fails as soon as one offset passes the threshold. With no such
  offset, it grabs the full screen and returns no hits. The
  `requires template.Some? ==> gameWindow.Some?` of `FindTemplate` and
  `Collect` therefore also excludes that harmless case. The precondition is
  acceptable because `Run` only starts collecting after the window was found.

## Model

| member | source | states |
|---|---|---|
| Matcher.Dedup | main.py:156-166 | The greedy pass never keeps more centres than it was given. |
| Matcher.DedupSeparated | main.py:156-166 | Any two kept centres are at least 20 pixels apart (squared distance at least 400). |
| Matcher.DedupSubsequence | main.py:152-166 | The kept centres are an order-preserving subsequence of the translated candidates. |
| Matcher.DedupFirst | main.py:152-166 | When there are candidates, the first one is kept, and it is the first hit. |
| Matcher.DedupPrefix | main.py:164-166 | Later candidates only append: the centres kept after a prefix are a prefix of the final result. |
| Matcher.DedupCoversEarlier | main.py:157-164 | Every candidate lies within 20 pixels of a centre kept no later than it: itself if kept, an earlier centre if dropped. |
| Matcher.DedupCovers | main.py:157-166 | Every candidate lies within 20 pixels of some hit, so no candidate could be added without breaking separation. |
| Matcher.HitsProperties | main.py:146-168 | For a present template the hits number at most the candidates and are pairwise separated. The first hit is the first candidate's centre. Each hit is `(x + w/2 + left, y + h/2 + top)` for some candidate offset, and every candidate's centre is within 20 pixels of a hit. |
| Matcher.DedupKeepsDistantMarkers | main.py:156-166 | Centres (100,100) and (150,100) are both kept. |
| Matcher.DedupMergesNearMatches | main.py:156-166 | Centres (100,100) and (105,102) collapse to the single hit (100,100). |
| Matcher.DedupNotMonotone | main.py:143-166 | Candidates (0,0),(15,0),(30,0) give hits (0,0),(30,0). The sub-list (15,0),(30,0) gives hit (15,0), which the longer list does not have. |
| Dispatch.FirstInterruption | main.py:192-197 | The number of clicks issued before the first pre-click read that lies more than 10 (Manhattan) from its reference: no interruption before it, and an interruption at it unless all hits were clicked. |
| Dispatch.ClicksIssuedIs | main.py:192-200 | The click count is exactly the index of the first interruption (or the number of hits if there is none). |
| Dispatch.CollectNoHits | main.py:187-188 | With no hits, collect returns false, issues no click or move, and reads the pointer once. |
| Dispatch.CollectCompletes | main.py:192-208 | With no interruption, every hit is clicked exactly once in order, then the pointer is moved to the original position. Collect returns true after `1 + 2n` pointer reads. |
| Dispatch.CollectAborts | main.py:194-197 | If the read before click `j` is more than 10 from the reference, collect returns false. Only hits before `j` were clicked, and no move is issued. |
| Dispatch.CollectTraceShape | main.py:192-208 | In every run the clicks are the hits in order, up to some point. A move happens exactly when collect returns true, and it is the last action, back to the original position. |
| Platform.Mouse.Position | main.py:194 | Each pointer read returns the next oracle sample and advances the read count. |
| Platform.Mouse.Click | main.py:199 | A click appends one click action at the given point. |
| Platform.Mouse.MoveTo | main.py:206 | A move appends one move action to the given point. |
| Bot.PVZAutoBot.constructor | main.py:12-29 | A new bot has no window, no original position and a cleared debug flag, and holds the loaded templates. |
| Bot.PVZAutoBot.HotkeyPressed | main.py:36-43 | A debug key press sets the flag. |
| Bot.PVZAutoBot.FindGameWindow | main.py:65-95 | A located window is recorded and reported as found. Otherwise the window is left as it was and false is returned. |
| Bot.PVZAutoBot.CaptureGameScreen | main.py:97-120 | Grabs the window rectangle (or the full screen without a window). After a capture the flag is clear, and exactly one screenshot was saved if and only if the flag was set on entry. |
| Bot.PVZAutoBot.FindTemplate | main.py:122-168 | Returns no hits and does not capture without a template. Otherwise it captures once (consuming the flag) and returns exactly the greedy hits of the translated candidates, at most as many as the candidates. The `matches` and `centers` lists stay equal throughout. |
| Bot.PVZAutoBot.Collect | main.py:170-190 | Records the original position from the first read. Its result, pointer actions and number of pointer reads are those of `CollectSucceeds`, `CollectTrace` and `CallsUsed` for the template's hits. The flag is consumed only when a template is given. |
| Bot.PVZAutoBot.ClickBatch | main.py:191-208 | The click loop: it clicks hits until the first interruption, and restores the pointer and returns true only if all hits were clicked, as `CollectTrace` prescribes. |
| Bot.PVZAutoBot.RunPass | main.py:222-226 | One pass collects suns, then silver coins. The second batch's pointer reads continue where the first stopped, and afterwards the original position is the silver-coin batch's first read. At most one debug screenshot is saved per pass, and only if some template is present. |

## Left out

- Template scoring (`cv2.matchTemplate` with `TM_CCOEFF_NORMED`) and the `>= threshold` filter are floating point inside a foreign library. The candidate offsets that pass the threshold are an input, in row-major order. The `threshold` argument is not modelled.
- Screen grabbing, colour conversion and writing the debug PNG (with its `time.time()` file name) are pixel and file I/O. A capture is modelled by the rectangle it asks for and a count of saved screenshots. A failed save is not modelled.
- The hotkey listener thread, `keyboard.wait`, its 0.1 s debounce and the race between setting and clearing the flag involve concurrency and OS hooks. A key press is the method `HotkeyPressed`, which sets the flag.
- Template loading (`cv2.imread`) is file I/O. The templates' sizes, or their absence, are constructor parameters.
- Window lookup, activation and maximising (`pygetwindow`) are OS calls. `FindGameWindow` takes the located geometry, or its absence, as a parameter.
- The OS pointer (`pyautogui.position`, `click`, `moveTo`) is the `Mouse` oracle and trace. `click(x, y)` both moves and clicks; it is one click action.
- `Run`'s endless loop, its 0.1 s and 0.05 s sleeps, console messages and `KeyboardInterrupt` handling are timing and process control. One pass of the loop is `RunPass`.
- Coordinates are unbounded integers. numpy's 64-bit arithmetic cannot overflow for screen-sized values.
- The click loop of `collect` is the separate method `ClickBatch`, which keeps each proof small. The source inlines it; the behaviour is the same.
