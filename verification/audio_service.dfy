/**
 * The key lookup on the `AudioService` object literal (services/AudioService.ts).
 * The platform calls behind each entry are not part of this model; what matters to
 * the screens is which body a call `AudioService.stop(...)` reaches.
 */
module AudioService {
  import opened Types

  /** The two bodies declared under the key `stop`. */
  datatype StopBody =
    | FinalizeRecording  // stopAndUnloadAsync, getURI, duration from a loaded copy
    | UnloadSound        // stopAsync and unloadAsync on a non-null sound

  /** One property of the object literal. */
  datatype Entry = Start | Stop(body: StopBody) | Play

  /** The properties in the order the object literal declares them. */
  const DECLARED: seq<Entry> := [Start, Stop(FinalizeRecording), Play, Stop(UnloadSound)]

  /** Entry `i` is named `stop` and no later entry is. */
  predicate IsLastStop(entries: seq<Entry>, i: int)
  {
    0 <= i < |entries| && entries[i].Stop? && forall j :: i < j < |entries| ==> !entries[j].Stop?
  }

  /**
   * Property lookup of `stop` on an object literal: when a key is declared more than
   * once, the object keeps the value of the last declaration.
   */
  function LookupStop(entries: seq<Entry>): (r: Option<StopBody>)
    ensures r.Some? ==> Stop(r.value) in entries
    ensures entries != [] && entries[|entries| - 1].Stop? ==> r == Some(entries[|entries| - 1].body)
  {
    if entries == [] then None
    else if entries[|entries| - 1].Stop? then Some(entries[|entries| - 1].body)
    else LookupStop(entries[..|entries| - 1])
  }

  /** The lookup finds nothing exactly when no entry is `stop`, and otherwise finds the last one. */
  lemma {:induction false} LookupStopFindsLast(entries: seq<Entry>)
    ensures LookupStop(entries).None? <==> forall i :: 0 <= i < |entries| ==> !entries[i].Stop?
    ensures LookupStop(entries).Some? ==>
              exists i :: IsLastStop(entries, i) && entries[i].body == LookupStop(entries).value
  {
    if entries != [] {
      var last := |entries| - 1;
      if entries[last].Stop? {
        assert IsLastStop(entries, last);
      } else {
        var init := entries[..last];
        LookupStopFindsLast(init);
        assert forall i :: 0 <= i < last ==> init[i] == entries[i];
        if LookupStop(init).Some? {
          var i :| IsLastStop(init, i) && init[i].body == LookupStop(init).value;
          assert IsLastStop(entries, i);
        }
      }
    }
  }

  /** `AudioService.stop` reaches the sound-unloading body, whatever handle it is given. */
  lemma StopReachesUnloadSound()
    ensures LookupStop(DECLARED) == Some(UnloadSound)
  {
  }
}
