/**
 * The session state of screens/MainScreen.tsx: the note list, the recording handle and
 * the playback handle, moved between idle, recording and playing by the screen's handlers.
 * Each handler runs as one atomic step; what the platform decides (permission, new handles,
 * the new note's id, path, date and duration, the answer to the delete dialog) arrives as
 * a parameter.
 */
module MainScreen {
  import opened Types
  import Lists
  import AudioService

  /** Platform calls made by the handlers, recorded in the order the source makes them. */
  datatype Effect =
    | RecordingStarted(rec: RecordingHandle)
    | RecordingStopped(rec: RecordingHandle)
    | FileMoved(to: string)
    | NotesSaved
    | SoundStopped(sound: SoundHandle)
    | SoundStarted(sound: SoundHandle, uri: string)
    | FileDeleted(path: string)

  /** The test a confirmed delete of `id` keeps a note by. */
  function KeepsOtherThan(id: string): (keep: VoiceNote -> bool)
    ensures forall n :: keep(n) <==> n.id != id
  {
    (n: VoiceNote) => n.id != id
  }

  /**
   * The search test of the list: `render` stands for turning a stored date into the
   * lower-cased local date string, and `needle` is the lower-cased search text.
   */
  function MatchesSearch(needle: string, render: string -> string): (keep: VoiceNote -> bool)
    ensures forall n :: keep(n) <==> Lists.Contains(render(n.date), needle)
    ensures needle == [] ==> forall n :: keep(n)
  {
    (n: VoiceNote) => Lists.Contains(render(n.date), needle)
  }

  /** The list a confirmed delete of `id` leaves. */
  function Remaining(notes: seq<VoiceNote>, id: string): (r: seq<VoiceNote>)
    ensures forall n :: n in r <==> n in notes && n.id != id
    ensures forall n :: multiset(r)[n] == if n.id == id then 0 else multiset(notes)[n]
    ensures Lists.SubsequenceOf(r, notes)
  {
    Lists.Filter(notes, KeepsOtherThan(id))
  }

  /** The notes the screen lists for a search text. */
  function Shown(notes: seq<VoiceNote>, needle: string, render: string -> string): (r: seq<VoiceNote>)
    ensures forall n :: n in r <==> n in notes && Lists.Contains(render(n.date), needle)
    ensures forall n :: multiset(r)[n] == if Lists.Contains(render(n.date), needle) then multiset(notes)[n] else 0
    ensures Lists.SubsequenceOf(r, notes)
  {
    Lists.Filter(notes, MatchesSearch(needle, render))
  }

  /** Deleting an id that no note carries leaves the list as it is, and only then. */
  lemma RemainingUnchangedIffAbsent(notes: seq<VoiceNote>, id: string)
    ensures Remaining(notes, id) == notes <==> forall n :: n in notes ==> n.id != id
  {
    Lists.FilterKeepsAll(notes, KeepsOtherThan(id));
  }

  /** A second delete of the same id changes nothing. */
  lemma RemainingIdempotent(notes: seq<VoiceNote>, id: string)
    ensures Remaining(Remaining(notes, id), id) == Remaining(notes, id)
  {
    RemainingUnchangedIffAbsent(Remaining(notes, id), id);
  }

  /** With an empty search text every note is listed. */
  lemma ShownAllForEmptySearch(notes: seq<VoiceNote>, render: string -> string)
    ensures Shown(notes, [], render) == notes
  {
    Lists.FilterKeepsAll(notes, MatchesSearch([], render));
  }

  /** A new recording appears at the end of the listed notes exactly when it matches the search. */
  lemma ShownAfterAppend(notes: seq<VoiceNote>, note: VoiceNote, needle: string, render: string -> string)
    ensures Shown(notes + [note], needle, render) ==
            Shown(notes, needle, render) + (if Lists.Contains(render(note.date), needle) then [note] else [])
  {
    Lists.FilterAppend(notes, note, MatchesSearch(needle, render));
  }

  /** After a delete the screen lists what it listed before, less the deleted id. */
  lemma ShownAfterDelete(notes: seq<VoiceNote>, id: string, needle: string, render: string -> string)
    ensures Shown(Remaining(notes, id), needle, render) == Remaining(Shown(notes, needle, render), id)
  {
    Lists.FilterCommutes(notes, KeepsOtherThan(id), MatchesSearch(needle, render));
  }

  /** The sounds a handle makes audible: none, or the one it holds. */
  function SoundsOf(h: Option<SoundHandle>): (s: set<SoundHandle>)
    ensures |s| <= 1
    ensures forall x :: x in s <==> h == Some(x)
  {
    if h.Some? then {h.value} else {}
  }

  /** The state of one mounted main screen. */
  class Session {
    var notes: seq<VoiceNote>
    var recording: Option<RecordingHandle>
    var isRecording: bool
    var currentSound: Option<SoundHandle>
    var playingId: Option<string>
    /** The list as last handed to `saveNotes` (or as loaded at mount). */
    ghost var persisted: seq<VoiceNote>
    /** The sounds that are producing audio. */
    ghost var audible: set<SoundHandle>
    /** The platform calls made so far. */
    ghost var trace: seq<Effect>

    /**
     * What every handler keeps: the durable list equals the in-memory one, a sound is
     * held exactly while a note id is marked playing, only the held sound is audible,
     * and the record button shows "stop" only while a recording handle is held.
     */
    ghost predicate Valid()
      reads this
    {
      && persisted == notes
      && (playingId.Some? <==> currentSound.Some?)
      && audible == SoundsOf(currentSound)
      && (isRecording ==> recording.Some?)
    }

    /** At most one sound is live, and it is the one the screen holds. */
    lemma AtMostOneLiveSound()
      requires Valid()
      ensures |audible| <= 1
      ensures forall s :: s in audible ==> currentSound == Some(s) && playingId.Some?
    {
    }

    /** The record button shows "stop" exactly while a recording handle is held. */
    ghost predicate RecordingSynced()
      reads this
    {
      isRecording <==> recording.Some?
    }

    /** Mounting the screen: the list is what the note store loads. */
    constructor (loaded: seq<VoiceNote>)
      ensures Valid() && RecordingSynced()
      ensures notes == loaded && persisted == loaded
      ensures recording == None && !isRecording && currentSound == None && playingId == None
      ensures audible == {} && trace == []
    {
      notes := loaded;
      persisted := loaded;
      recording := None;
      isRecording := false;
      currentSound := None;
      playingId := None;
      audible := {};
      trace := [];
    }

    /** `startRecord`: without permission nothing changes; with it, `rec` becomes the live recording. */
    method StartRecord(granted: bool, rec: RecordingHandle)
      requires Valid()
      modifies this
      ensures Valid()
      ensures !granted ==> recording == old(recording) && isRecording == old(isRecording) && trace == old(trace)
      ensures granted ==> recording == Some(rec) && isRecording && trace == old(trace) + [RecordingStarted(rec)]
      ensures granted || old(RecordingSynced()) ==> RecordingSynced()
      ensures notes == old(notes) && persisted == old(persisted)
      ensures currentSound == old(currentSound) && playingId == old(playingId) && audible == old(audible)
    {
      if !granted {
        return;
      }
      trace := trace + [RecordingStarted(rec)];
      recording := Some(rec);
      isRecording := true;
    }

    /**
     * `stopRecord` when the call `AudioService.stop(recording)` reaches `body` (None: no
     * `stop` at all). With no recording it does nothing. Otherwise it clears `isRecording`;
     * then, if the call reaches the recording body, it finalizes the recording, moves the
     * file to `path`, appends the new note, saves the list and drops the handle. Any other
     * body (or none) throws on a recording handle: the handler rejects and nothing after
     * the call runs.
     */
    method StopRecordVia(body: Option<AudioService.StopBody>, id: string, path: string, date: string, duration: real)
      returns (rejected: bool)
      requires Valid()
      modifies this
      ensures Valid()
      ensures rejected <==> old(recording).Some? && body != Some(AudioService.FinalizeRecording)
      ensures old(recording).None? ==>
                notes == old(notes) && persisted == old(persisted) && trace == old(trace) &&
                isRecording == old(isRecording) && recording == None
      ensures old(recording).Some? && !rejected ==>
                && notes == old(notes) + [VoiceNote(id, path, date, Some(duration), None)]
                && persisted == notes
                && trace == old(trace) + [RecordingStopped(old(recording).value), FileMoved(path), NotesSaved]
                && recording == None && !isRecording
      ensures rejected ==>
                && notes == old(notes) && persisted == old(persisted) && trace == old(trace)
                && recording == old(recording) && !isRecording
      ensures currentSound == old(currentSound) && playingId == old(playingId) && audible == old(audible)
    {
      if recording.None? {
        return false;
      }
      isRecording := false;
      if body != Some(AudioService.FinalizeRecording) {
        return true;
      }
      trace := trace + [RecordingStopped(recording.value), FileMoved(path)];
      var newNote := VoiceNote(id, path, date, Some(duration), None);
      var updated := notes + [newNote];
      persisted := updated;
      trace := trace + [NotesSaved];
      notes := updated;
      recording := None;
      rejected := false;
    }

    /**
     * `stopRecord` as intended, with `stop` reaching the recording body its first
     * declaration gives: with no recording it does nothing; otherwise the new note is
     * appended, the list saved and the handle dropped.
     */
    method StopRecord(id: string, path: string, date: string, duration: real)
      requires Valid()
      modifies this
      ensures Valid() && RecordingSynced()
      ensures old(recording).None? ==>
                notes == old(notes) && persisted == old(persisted) && trace == old(trace) &&
                isRecording == old(isRecording)
      ensures old(recording).Some? ==>
                && notes == old(notes) + [VoiceNote(id, path, date, Some(duration), None)]
                && persisted == notes
                && trace == old(trace) + [RecordingStopped(old(recording).value), FileMoved(path), NotesSaved]
      ensures recording == None && !isRecording
      ensures currentSound == old(currentSound) && playingId == old(playingId) && audible == old(audible)
    {
      var _ := StopRecordVia(Some(AudioService.FinalizeRecording), id, path, date, duration);
    }

    /**
     * `stopRecord` as the source runs it: `stop` resolves to the later, sound body, whose
     * `stopAsync` call a recording does not have, so the handler rejects right after
     * clearing `isRecording`. No note is added, nothing is saved, the handle stays held.
     */
    method StopRecordAsWritten(id: string, path: string, date: string, duration: real) returns (rejected: bool)
      requires Valid()
      modifies this
      ensures Valid()
      ensures rejected <==> old(recording).Some?
      ensures rejected ==> !RecordingSynced()
      ensures rejected ==> !isRecording
      ensures recording == old(recording)
      ensures notes == old(notes) && persisted == old(persisted) && trace == old(trace)
      ensures currentSound == old(currentSound) && playingId == old(playingId) && audible == old(audible)
    {
      rejected := StopRecordVia(AudioService.LookupStop(AudioService.DECLARED), id, path, date, duration);
    }

    /** `AudioService.stop(currentSound)`: stops the held sound, if any; the handle itself stays. */
    method StopHeldSound()
      requires Valid()
      modifies this`audible, this`trace
      ensures audible == {}
      ensures trace == old(trace) + (if currentSound.Some? then [SoundStopped(currentSound.value)] else [])
    {
      if currentSound.Some? {
        audible := audible - {currentSound.value};
        trace := trace + [SoundStopped(currentSound.value)];
      }
    }

    /** `play(note)`: stops whatever sound is held, then starts `sound` on the note's file. */
    method Play(note: VoiceNote, sound: SoundHandle)
      requires Valid()
      modifies this
      ensures Valid()
      ensures currentSound == Some(sound) && playingId == Some(note.id)
      ensures audible == {sound}
      ensures trace == old(trace) + (if old(currentSound).Some? then [SoundStopped(old(currentSound).value)] else [])
                                  + [SoundStarted(sound, note.path)]
      ensures notes == old(notes) && persisted == old(persisted)
      ensures recording == old(recording) && isRecording == old(isRecording)
    {
      StopHeldSound();
      audible := audible + {sound};
      trace := trace + [SoundStarted(sound, note.path)];
      currentSound := Some(sound);
      playingId := Some(note.id);
    }

    /** The status callback `play` registers: a sound that played to its end clears playback. */
    method PlaybackStatusUpdate(sound: SoundHandle, isLoaded: bool, didJustFinish: bool)
      requires Valid()
      requires isLoaded && didJustFinish ==> sound in audible
      modifies this
      ensures Valid()
      ensures isLoaded && didJustFinish ==> currentSound == None && playingId == None && audible == {}
      ensures !(isLoaded && didJustFinish) ==>
                currentSound == old(currentSound) && playingId == old(playingId) && audible == old(audible)
      ensures trace == old(trace)
      ensures notes == old(notes) && persisted == old(persisted)
      ensures recording == old(recording) && isRecording == old(isRecording)
    {
      if isLoaded && didJustFinish {
        audible := audible - {sound};
        playingId := None;
        currentSound := None;
      }
    }

    /** `stopPlayback`: stops the held sound and clears playback; a second call does nothing. */
    method StopPlayback()
      requires Valid()
      modifies this
      ensures Valid()
      ensures currentSound == None && playingId == None && audible == {}
      ensures trace == old(trace) + (if old(currentSound).Some? then [SoundStopped(old(currentSound).value)] else [])
      ensures old(currentSound).None? ==> trace == old(trace) && playingId == old(playingId)
      ensures notes == old(notes) && persisted == old(persisted)
      ensures recording == old(recording) && isRecording == old(isRecording)
    {
      StopHeldSound();
      currentSound := None;
      playingId := None;
    }

    /**
     * `deleteNote(id, path)` once the dialog is answered: cancel changes nothing; delete
     * removes the file, drops every note with `id`, saves the list and only then stops
     * playback if that id was playing.
     */
    method DeleteNote(id: string, path: string, confirmed: bool)
      requires Valid()
      modifies this
      ensures Valid()
      ensures !confirmed ==>
                notes == old(notes) && persisted == old(persisted) && trace == old(trace) &&
                currentSound == old(currentSound) && playingId == old(playingId) && audible == old(audible)
      ensures confirmed ==>
                && notes == Remaining(old(notes), id)
                && persisted == notes
                && trace == old(trace) + [FileDeleted(path), NotesSaved]
                            + (if old(playingId) == Some(id) then [SoundStopped(old(currentSound).value)] else [])
      ensures confirmed && old(playingId) == Some(id) ==> currentSound == None && playingId == None && audible == {}
      ensures !confirmed || old(playingId) != Some(id) ==>
                currentSound == old(currentSound) && playingId == old(playingId) && audible == old(audible)
      ensures recording == old(recording) && isRecording == old(isRecording)
    {
      if !confirmed {
        return;
      }
      trace := trace + [FileDeleted(path)];
      var updated := Remaining(notes, id);
      persisted := updated;
      trace := trace + [NotesSaved];
      notes := updated;
      if playingId == Some(id) {
        StopPlayback();
      }
    }
  }
}
