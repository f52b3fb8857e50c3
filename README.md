# pyclipboard: the clipboard history and settings store in Dafny

pyclipboard is a PyQt desktop utility. It watches the system clipboard and keeps
the last few copied text fragments as clickable records. It also keeps a
two-key settings file: `maxNrOfRecords` (the history capacity) and
`startMinimized`. This project models the state that the main window
`ClipboardEx` holds outside its widgets:

- `recordList`, the history: a first-in-first-out list of recorded texts, oldest first;
- `appSettingsDict`, the settings: a dictionary that starts from a fixed defaults table
  and is merged key by key with the decoded settings file.

Files:

- `values.dfy` (module `Values`) holds the decoded JSON value a settings file can hold,
  Python's `==` between a list length and such a value, and the exceptions the core raises.
- `settings.dfy` (module `Settings`) holds the defaults, the per-key merge performed by
  `read_settings`, the document `write_settings` serialises, and the lemmas about loading.
- `history.dfy` (module `History`) holds one clipboard change (`Capture`) and a sequence of
  them (`CaptureAll`) as functions on lists, with the lemmas about eviction, the bound and FIFO order.
- `clipboard.dfy` (module `Clipboard`) holds the class `ClipboardApp` with the fields `records`
  and `settings`. Its methods update those fields in place, as the Python methods do, and are
  proved against the functions above. `StartUp` runs the constructor and the settings read, as
  `__init__` does, and two client sessions show what a caller can conclude.

Behaviour kept from the code:

- The eviction test is Python's `len(recordList) == appSettingsDict['maxNrOfRecords']`, with
  Python's equality. `true` counts as 1 and `5.0` counts as 5. A string or `null` never matches,
  so the history then grows without bound.
- Lowering the capacity does not trim the history. Once the list is longer than the capacity,
  nothing is evicted while the capacity stays below the length; raising it again to a value the
  list later reaches makes eviction resume there.
- A capacity of 0, which a settings file can hold, makes the first recorded text call `pop(0)`
  on an empty list. That raises `IndexError` (`PopFromEmptyList`).
- A decoded settings file that is not a mapping makes every `data[key]` raise. The bare
  `except` swallows it, so the settings stay as they were and no rewrite happens.
- An error opening the file other than "not found" propagates (`ConfigUnreadable`). So does
  a decoding error other than a JSON syntax error, such as invalid UTF-8.
- In `adjust_settings`, the capacity is stored before `dlg.startMin` is read. If the check box
  was never toggled, that read raises `AttributeError` (`NoStartMinimizedChoice`), which escapes
  the Qt slot and aborts the application, so the change is lost with the process. The model
  returns `Failure(NoStartMinimizedChoice)` instead, with the new capacity stored and nothing written.

The bound on the history, and the stored defaults:

- The history stays within the capacity only while the capacity is at least 1 and no lower than
  the length (`CaptureAllKeepsBound`, `CaptureAllNeverTrims`, `CaptureAllZeroCapacityFails`).
- The default `startMinimized` is `Qt.Checked`, which JSON stores as the integer 2.

## Model

| member | source | states |
|---|---|---|
| `Values.PyIntEquals` | pyclipboard.py:224 | Python's `len == value` holds for exactly one integer, the one the value stands for (an int as itself, `true`/`false` as 1/0, an integral float as its value), and for none when the value is a string, `null`, a list or a dict: a setting equals at most one list length |
| `Settings.Lookup` | pyclipboard.py:87-90 | `data[key]` yields a value exactly when the decoded file is a mapping holding the key; otherwise the exception is swallowed |
| `Settings.Serialize` | pyclipboard.py:100-102 | every key of the settings reads back from the written document with its value, and no other key does |
| `Settings.Load` | pyclipboard.py:82-98 | only an unreadable file fails; a success keeps exactly the current keys; a rewrite happens exactly for a missing or undecodable file, and then it keeps and writes the current settings |
| `Settings.Merge` | pyclipboard.py:86-90 | the merged settings have exactly the keys of the current settings; unknown file keys are dropped |
| `Settings.LoadParsedMapping` | pyclipboard.py:82-90 | loading a mapping yields exactly the known keys, each taking the file's value if present and its current value otherwise, with no rewrite |
| `Settings.LoadFallsBack` | pyclipboard.py:92-98 | a missing or undecodable file keeps the current settings and writes exactly those settings back |
| `Settings.LoadIgnoresNonMapping` | pyclipboard.py:86-90 | a decoded value that is not a mapping leaves the settings unchanged and writes nothing |
| `Settings.LoadSerializeRoundTrip` | pyclipboard.py:86-102 | loading exactly what `write_settings` serialised returns those same settings, with no rewrite |
| `Settings.MergeIdempotent` | pyclipboard.py:86-90 | merging the same decoded file twice gives the same settings as merging it once |
| `Settings.DefaultsPersist` | pyclipboard.py:76-102 | a first start without a file writes the defaults `{maxNrOfRecords: 5, startMinimized: Qt.Checked}`, and the next start reads them back unchanged |
| `Settings.LoadKeepsOutOfRangeCapacity` | pyclipboard.py:86-90 | a file holding `maxNrOfRecords: 99` loads as 99: the store does not clamp |
| `History.Capture` | pyclipboard.py:216-228 | one clipboard change fails exactly when a recordable text meets an empty list whose capacity equals 0; otherwise an unrecordable payload changes nothing, a recorded text comes last, an eviction removes the oldest record and keeps the length, and with no eviction the text is appended |
| `History.CaptureAll` | pyclipboard.py:216-228 | one change per clipboard notification, in arrival order: without recordable texts nothing changes, the length grows by at most the number of recorded texts, and the last recorded text ends the history |
| `History.Texts` | pyclipboard.py:219-221 | the recorded texts are no more than the payloads and are all non-empty |
| `History.CaptureIgnoresUnrecordable` | pyclipboard.py:219-221 | a payload without text, or with empty text, leaves the history exactly as it was and evicts nothing |
| `History.CaptureWhenFull` | pyclipboard.py:224-228 | when the length equals the capacity, the history becomes `old[1..] + [text]`: only the oldest record is evicted, and the length is unchanged |
| `History.CaptureWhenNotFull` | pyclipboard.py:224-228 | when the length differs from the capacity, the text is appended with no eviction, and the length grows by exactly one |
| `History.CaptureKeepsBound` | pyclipboard.py:224-228 | with a capacity `n >= 1` and at most `n` records, a change succeeds, keeps at most `n` records, and leaves the newest `n` of old records plus the text |
| `History.CaptureAllKeepsNewest` | pyclipboard.py:216-228 | FIFO: from at most `n >= 1` records, any sequence of changes leaves exactly the newest `n` of the old records followed by the recorded texts |
| `History.CaptureAllKeepsBound` | pyclipboard.py:224-228 | from at most `n >= 1` records, every sequence of changes succeeds and keeps at most `n` records |
| `History.CaptureAllNeverTrims` | pyclipboard.py:224-228 | a capacity below the length, or a setting that is not a number, never evicts: the history grows by every recorded text |
| `History.CaptureAllZeroCapacityFails` | pyclipboard.py:224-225 | with capacity 0, an empty history fails with `IndexError` at the first recorded text |
| `History.CapacityThreeScenario` | pyclipboard.py:224-228 | with capacity 3, copying "a", "b", "c", "d" leaves "b", "c", "d" in that order |
| `Clipboard.ClipboardApp.constructor` | pyclipboard.py:76-78 | the defaults of line 76 and the empty history of line 78; the settings read of line 77 is the second step of `StartUp` |
| `Clipboard.StartUp` | pyclipboard.py:69-78 | a new session holds the settings `Load` gives for the defaults and the settings file, with an empty history; an unreadable file makes the read raise |
| `Clipboard.ClipboardApp.WriteSettings` | pyclipboard.py:100-102 | the written document is the whole settings dictionary, and loading it gives back the same settings |
| `Clipboard.ClipboardApp.ReadSettings` | pyclipboard.py:82-98 | the key-by-key loop leaves the settings equal to `Load`'s result and returns the rewritten document, or the propagated error with settings unchanged |
| `Clipboard.ClipboardApp.AdjustSettings` | pyclipboard.py:201-206 | an accepted dialog stores the record count, then the check state and writes; without a check state, it stores only the count and raises; the history is untouched |
| `Clipboard.ClipboardApp.ClearAppMemory` | pyclipboard.py:210-213 | draining from the front empties the history and removes the old records in oldest-first order; on an empty history it removes nothing |
| `Clipboard.ClipboardApp.CopyFromClipboard` | pyclipboard.py:216-228 | the new history and the evicted record are exactly those of `Capture` on the old history and the current capacity setting; on `IndexError` the history is unchanged |

## Left out

- Qt widgets, layouts, the scroll area, the toolbar, the tray icon and window states are left out:
  `initialize_UI`, `set_tray`, `changeEvent` and `create_toolbar`, the minimising calls after
  a copy and at start-up, and the `startMinimized` check at start-up. This is toolkit glue.
- The settings dialog's internals are left out: the spin box's 1 to 30 range and the check box
  signals. The dialog's result is an input (`DialogResult`), and its record count is any value.
- AdjustSettings: does not model the construction of the dialog (pyclipboard.py:36-52, called at
  line 202). It hands the stored `maxNrOfRecords` to `QSpinBox.setValue` and `startMinimized` to
  `setCheckState`; a stored value those widgets refuse, such as a string or `null` that a settings
  file can supply, raises `TypeError` before the dialog opens, and nothing changes. The model
  accepts any `DialogResult` whatever the stored settings hold, because which values the Qt
  bindings accept (floats, bools, out-of-range check states) is toolkit behaviour outside this model.
- Each record is its text only. The button wrapper, its shortened display text, `remove_from_UI`
  and the newest-first display order are presentation. `ClearAppMemory` and `CopyFromClipboard`
  report the records removed from the display instead.
- `copy_to_clipboard` (re-copying a record) is a write to the system clipboard, a foreign call.
- The start-up call of `copy_from_clipboard` is left out. Its guard compares a bound method
  with `""`, so it is always true, and the call is an ordinary `CopyFromClipboard`.
- File I/O and the JSON text format are left out. A read is given as its outcome (`ConfigFile`);
  a write is the decoded document handed to the writer. A failed write, which propagates in
  the source, and the informational `print` messages are not modelled.
- JSON `NaN` and `Infinity`, which Python's decoder accepts, are not modelled. A float is taken
  at its exact value; non-finite floats would never equal a length, like a string.
- An exception escaping a Qt slot, which aborts the application, is not modelled. The model
  returns the exception as a `Failure` value instead.
