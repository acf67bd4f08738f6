/** Entities of types/index.ts, plus the opaque platform handles the screens hold. */
module Types {

  datatype Option<+T> = None | Some(value: T)

  /** One recorded memo. `duration` is in seconds and `title` is never set by the modelled code. */
  datatype VoiceNote = VoiceNote(
    id: string,
    path: string,
    date: string,
    duration: Option<real>,
    title: Option<string>)

  datatype RecordingQuality = LOW | MEDIUM | HIGH

  /** `defaultPlaybackSpeed` is kept in hundredths of normal speed (100 is 1.0x). */
  datatype AppSettings = AppSettings(recordingQuality: RecordingQuality, defaultPlaybackSpeed: int)

  /** An `Audio.Recording` object, known only by identity. */
  datatype RecordingHandle = RecordingHandle(serial: nat)

  /** An `Audio.Sound` object, known only by identity. */
  datatype SoundHandle = SoundHandle(serial: nat)
}
