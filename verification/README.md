# Audio Recorder: session and settings model

A Dafny model of the logic in a small voice-memo app. The user records notes, lists and searches them, plays them back and deletes them. The model covers two screens:

- **Main screen** (`screens/MainScreen.tsx`). Besides the search text (line 25), which the model passes to `Shown` as `needle`, the screen keeps five pieces of state: the note list, the recording handle, the `isRecording` flag, the playback handle and the id of the note being played. Its handlers move this state between idle, recording and playing, and they edit the list. `MainScreen.Session` is a class with one field per piece of state and one method per handler. Each handler runs as one atomic step. The class has three ghost fields:
  - `persisted` is the list last handed to `saveNotes`.
  - `audible` is the set of sounds currently producing audio.
  - `trace` records the platform calls (start or stop a recording, move or delete a file, save, stop a sound, start a sound on a file) in the order the handlers make them.

  The list computations are pure functions over `seq<VoiceNote>`: the filter that drops a deleted id, and the search filter. Both are built on one `Lists.Filter`.
- **Settings screen** (`screens/SettingsScreen.tsx`). It has the quality and speed option tables, the two record updates `updateQuality` and `updateSpeed`, and the rule that an option is highlighted when its value equals the current setting. Speeds are integer hundredths: 50, 75, 100, 125, 150 and 200 stand for 0.5x to 2.0x.

Everything the platform decides becomes a method parameter:

- whether microphone permission was granted;
- the new recording and sound handles, as opaque tokens;
- the new note's id, file path, ISO date and duration in seconds;
- whether the delete dialog was confirmed;
- the status a sound reports.

Two parts of the search stay abstract:

- The conversion of a stored date to a lower-cased local date string is a function parameter (`render`).
- The search text is passed already lower-cased (`needle`).

Three behaviours of the code worth knowing:

- `startRecord` does not stop a sound that is playing. Recording and playback can both be active.
- A confirmed delete removes the file and saves the shortened list before it stops playback of the deleted note. It does not stop playback first.
- Playback that fails to load is not turned back into the idle state. This case is listed under "Left out".

## Model

| member | source | states |
|---|---|---|
| `Lists.Filter` | screens/MainScreen.tsx:112 | The result keeps exactly the elements that pass the test, each with its original multiplicity. The result is a subsequence of the input, so order is kept, and it is never longer than the input. |
| `Lists.FilterKeepsAll` | screens/MainScreen.tsx:121-123 | A filter returns its input unchanged if and only if every element passes. |
| `Lists.FilterAppend` | screens/MainScreen.tsx:78 | Filtering `s + [x]` gives the filtered `s`, followed by `x` only if `x` passes. |
| `Lists.FilterCommutes` | screens/MainScreen.tsx:112 | Two filters give the same result in either order. |
| `Lists.ContainsIffOccurs` | screens/MainScreen.tsx:122 | The `includes` test holds exactly when the search text occurs at some position of the date string. |
| `Lists.FilterCons` | screens/MainScreen.tsx:112 | Filtering `[x] + s` decides `x` first and then filters `s`. |
| `Lists.Contains` | screens/MainScreen.tsx:122 | `String.prototype.includes`: every string includes the empty search text, and no string includes a longer one. |
| `MainScreen.KeepsOtherThan` | screens/MainScreen.tsx:112 | The delete filter's test `n.id !== id`: a note passes exactly when its id differs from the deleted one. |
| `MainScreen.MatchesSearch` | screens/MainScreen.tsx:121-123 | The search test: a note passes exactly when its rendered date includes the search text, so every note passes an empty search. |
| `MainScreen.Remaining` | screens/MainScreen.tsx:112 | After a delete, a note remains if and only if it was in the list and has a different id. Remaining notes keep their multiplicity and their relative order. |
| `MainScreen.RemainingUnchangedIffAbsent` | screens/MainScreen.tsx:112 | Deleting an id leaves the list unchanged if and only if no note has that id. |
| `MainScreen.RemainingIdempotent` | screens/MainScreen.tsx:112 | Deleting the same id a second time changes nothing. |
| `MainScreen.Shown` | screens/MainScreen.tsx:121-123 | The listed notes are exactly the notes whose rendered date includes the search text, each as often as in `notes`. They keep the order of `notes`. |
| `MainScreen.ShownAllForEmptySearch` | screens/MainScreen.tsx:121-123 | An empty search lists every note, in order. |
| `MainScreen.ShownAfterAppend` | screens/MainScreen.tsx:78-80 | After a recording is appended, the listed notes are the old listed notes, followed by the new note only if it matches the search. |
| `MainScreen.ShownAfterDelete` | screens/MainScreen.tsx:112-114 | After a delete, the listed notes are the old listed notes without the deleted id. |
| `MainScreen.SoundsOf` | screens/MainScreen.tsx:28 | A playback handle makes at most one sound audible: the one it holds, if any. |
| `MainScreen.Session.AtMostOneLiveSound` | screens/MainScreen.tsx:84-102 | In every state the handlers keep, at most one sound is live, and that sound is the held one, with a note id marked playing. |
| `MainScreen.Session.constructor` | screens/MainScreen.tsx:24-43 | On mount, the list is the loaded list and equals the durable copy. Nothing is recording or playing, and no sound is audible. |
| `MainScreen.Session.StartRecord` | screens/MainScreen.tsx:45-60 | Without permission, nothing changes. With permission, the new handle is held and `isRecording` is true. The list, the durable copy and playback are untouched. |
| `MainScreen.Session.StopRecordVia` | screens/MainScreen.tsx:62-82 | `stopRecord` for whatever body the call `AudioService.stop(recording)` reaches. Without a recording handle, nothing changes. With one, `isRecording` is cleared. If the call reaches the recording body, the recording is stopped, the file is moved and the list is saved, in that order. The list gains exactly one note at its end and the handle is dropped. With any other body, or none, the handler rejects: no note is added, nothing is saved and the handle stays held. |
| `MainScreen.Session.StopRecord` | screens/MainScreen.tsx:62-82 | `stopRecord` as intended, with `stop` reaching the recording body. Without a recording handle, nothing changes. With one, the recording is stopped, the file is moved and the list is saved, in that order. The list gains exactly one note at its end: it has the given id, path, date and duration and no title. Earlier notes are kept in order. The durable copy equals the new list. `isRecording` is false and the handle is dropped. |
| `MainScreen.Session.StopRecordAsWritten` | screens/MainScreen.tsx:62-66 | `stopRecord` as the code actually runs it, through `StopRecordVia` with the body the key lookup gives (see Findings). With a recording handle, the call rejects after `isRecording` is cleared. No note is added, nothing is saved, and the handle stays held, so the button and the handle disagree. |
| `MainScreen.Session.StopHeldSound` | services/AudioService.ts:26-31 | Stopping a null sound does nothing. Stopping a held sound records the stop and leaves no sound audible. |
| `MainScreen.Session.Play` | screens/MainScreen.tsx:84-96 | Any held sound is stopped before the new sound is started on the note's own file (`note.path`). Afterwards the new sound is the only audible sound, and `playingId` is the note's id. |
| `MainScreen.Session.PlaybackStatusUpdate` | screens/MainScreen.tsx:90-95 | If a loaded sound has just finished, playback is cleared. Any other status changes nothing. |
| `MainScreen.Session.StopPlayback` | screens/MainScreen.tsx:98-102 | Afterwards no sound is held or audible and `playingId` is none. With no sound held, the call makes no platform call, so a repeated call is a no-op. |
| `MainScreen.Session.DeleteNote` | screens/MainScreen.tsx:104-119 | A cancelled delete changes nothing. A confirmed delete deletes the file, keeps only notes with another id, saves that list and makes it the durable copy. Only after that, and only if the deleted id was playing, does it stop playback. Otherwise playback is untouched. |
| `AudioService.LookupStop` | services/AudioService.ts:3-32 | Key lookup of `stop` on the service object. A body it finds is declared under `stop`, and a `stop` declared last is the one found. |
| `AudioService.LookupStopFindsLast` | services/AudioService.ts:3-32 | Looking up `stop` gives none exactly when no entry is named `stop`. Otherwise it gives the body of the last entry named `stop`. |
| `AudioService.StopReachesUnloadSound` | services/AudioService.ts:11-31 | In this service object, `stop` resolves to the sound-unloading body. |
| `SettingsScreen.UpdateQuality` | screens/SettingsScreen.tsx:28-30 | The new settings have the chosen quality and the old default playback speed. |
| `SettingsScreen.UpdateSpeed` | screens/SettingsScreen.tsx:32-34 | The new settings have the chosen speed and the old recording quality. |
| `SettingsScreen.UpdatesLastWinsAndCommute` | screens/SettingsScreen.tsx:28-34 | Of two updates to the same field, the later one wins. A quality update and a speed update commute. |
| `SettingsScreen.SpeedOptionsAscendingAndPositive` | screens/SettingsScreen.tsx:25 | The speed table `SPEED_OPTIONS` (0.5x to 2.0x in hundredths) is strictly ascending, all speeds are positive, and it contains 1.0x. |
| `SettingsScreen.QualityOptionsEachOnce` | screens/SettingsScreen.tsx:19-23 | The quality table `QUALITY_OPTIONS` has three options, and each of LOW, MEDIUM and HIGH is the value of exactly one of them. |
| `SettingsScreen.QualityIsSelected` | screens/SettingsScreen.tsx:57 | The highlight test for a quality option: the option's value equals the current quality (the same comparison appears at lines 65 and 72). |
| `SettingsScreen.SpeedIsSelected` | screens/SettingsScreen.tsx:91 | The highlight test for a speed option: the option equals the current default speed (the same comparison appears at line 98). |
| `SettingsScreen.SelectedQualities` | screens/SettingsScreen.tsx:52-76 | The highlighted quality options are exactly the table options whose value is the current quality, in table order. |
| `SettingsScreen.SelectedSpeeds` | screens/SettingsScreen.tsx:86-104 | The highlighted speed options are exactly the table speeds equal to the current default speed, in table order. |
| `SettingsScreen.QualitySelectionExactlyOne` | screens/SettingsScreen.tsx:52-76 | For any settings, exactly one quality option is highlighted: the one whose value is the current quality. |
| `SettingsScreen.SpeedSelectionAtMostOne` | screens/SettingsScreen.tsx:86-104 | If the current speed is in the table, exactly that option is highlighted. Otherwise no option is highlighted. |
| `SettingsScreen.SpeedChoiceHighlightsIt` | screens/SettingsScreen.tsx:88-93 | Choosing the i-th speed highlights that speed alone and leaves the quality highlight unchanged. |
| `SettingsScreen.QualityChoiceHighlightsIt` | screens/SettingsScreen.tsx:53-59 | Choosing a quality highlights that quality alone and leaves the speed highlight unchanged. |

## Findings

| source | as written | input that shows it | evidently intended | confidence | as-written member | corrected member |
|---|---|---|---|---|---|---|
| services/AudioService.ts:11-31 | The service object declares `stop` twice. A JavaScript object literal keeps the later declaration, so `AudioService.stop(recording)` at screens/MainScreen.tsx:66 runs the sound body. That body calls `stopAsync`, which a recording handle does not have, so `stopRecord` rejects right after setting `isRecording` to false. | Any tap on the stop button after a granted `startRecord`. | Finalize the recording, append the new note, save the list and drop the handle. | high (not executed) | `MainScreen.Session.StopRecordAsWritten` | `MainScreen.Session.StopRecord` |

## Left out

- Asynchronous interleaving of handlers. The code guards only with `if (!recording)`, and each handler is modelled as one atomic step. Stale React closures are not modelled either.
- Device I/O:
  - Creating the recordings directory is not modelled.
  - Moving and deleting files, and the platform's audio-mode calls, are not modelled beyond the `trace` entries for the move and the delete.
  - No model of which files exist.
- Storage failures. `saveNotes` swallows write errors. The model assumes every save succeeds, so `persisted` always equals `notes`.
- Corrupt stored data. `loadNotes` turns unreadable data into an empty list. The constructor takes whatever `loadNotes` returned as its argument, so the model does not represent a corrupt copy that stays on disk until the next save.
- `MainScreen.Session.Play`: does not model a failure of `AudioService.play` (a missing or unreadable file). That failure is a platform error. In the code it rejects after the old sound was stopped and before the new handle is stored.
- `MainScreen.Session.StopRecordAsWritten`: stops at the rejection. It does not model that the capture keeps running, or what a later `startRecord` does with a second recording.
- `MainScreen.Session.PlaybackStatusUpdate`: requires that a sound reporting "just finished" is audible. This is a platform guarantee, because a stopped or unloaded sound never reports finishing.
- Alerts (permission needed, delete confirmation, support) become a flag or nothing.
- Duration is a `real` supplied by the platform. Its floating-point computation in the service and its one-decimal display in `components/RecordingListItem.tsx` are not modelled.
- The per-item `isPlaying` highlight and the rest of the rendering and styles.
- Id uniqueness. The code calls `Date.now()` separately for the file name and for the id, and nothing in the model relies on unique ids.
- Local date formatting and lower-casing in the search. The formatted date is the `render` parameter and the search text arrives lower-cased.
- `SettingsScreen.UpdateSpeed`: accepts any speed, as the code does. Speeds are integer hundredths, not floating-point numbers.
- Loading and saving settings, and their defaults. No code for these exists in `utils/storage.ts`, and no screen in these files mounts the settings screen. The settings are never read by recording or playback: the service always records with its high-quality preset.
- App wiring (`App.tsx`, `app/index.tsx`, `app/_layout.tsx`).
