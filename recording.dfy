/**
 * The recorder controls: the process-wide recording variables, the start
 * and stop actions with their rollback and cleanup, the record button and
 * the status line.
 *
 * The platform services (the media store, file descriptors and the audio
 * recorder) are modelled by `Platform`: each call that can fail in the
 * source takes a flag saying whether it fails this time.
 */
module Recording {
  import opened Wrappers
  import opened Text
  import Selection

  /** `Build.VERSION_CODES.Q`: from this level on, an entry can be given a
      relative path and a pending flag. */
  const Q: int := 29

  /** The display name inserted. The source writes the template
      `"REC_${'$'}timestamp.m4a"`, which yields a literal dollar sign, so
      the name is this constant and the formatted timestamp is unused. */
  const DisplayName: string := "REC_$timestamp.m4a"

  const MimeType: string := "audio/mp4"

  /** The relative path inserted, likewise a constant: the category name
      is never substituted. */
  const RelativePath: string := "Recordings/MultiDirRecorder/$category"

  /** A media-store row, as far as this program writes it. `None` is a
      column that was never put. */
  datatype MediaEntry = MediaEntry(
    displayName: string,
    mimeType: string,
    relativePath: Option<string>,
    isPending: Option<int>)

  /** The values `startRecording` inserts (the two clock columns left out). */
  function NewEntry(sdk: int): (e: MediaEntry)
    ensures e.displayName == DisplayName && e.mimeType == MimeType
    ensures sdk >= Q <==> e.relativePath == Some(RelativePath)
    ensures sdk >= Q <==> e.isPending == Some(1)
    ensures sdk < Q <==> e.relativePath == None && e.isPending == None
  {
    if sdk >= Q then MediaEntry(DisplayName, MimeType, Some(RelativePath), Some(1))
    else MediaEntry(DisplayName, MimeType, None, None)
  }

  /** The update that puts `IS_PENDING = 0`: only that column changes. */
  function Published(e: MediaEntry): (r: MediaEntry)
    ensures r.isPending == Some(0)
    ensures r.displayName == e.displayName && r.mimeType == e.mimeType && r.relativePath == e.relativePath
  {
    e.(isPending := Some(0))
  }

  /** What is left of an entry whose rollback could not delete it: published
      first when the level allows and the update did not throw. */
  function Abandoned(sdk: int, updateThrows: bool): MediaEntry {
    if sdk >= Q && !updateThrows then Published(NewEntry(sdk)) else NewEntry(sdk)
  }

  /** The entry a clean start then stop leaves behind. */
  function Finished(sdk: int): (e: MediaEntry)
    ensures e.displayName == DisplayName && e.mimeType == MimeType
    ensures sdk >= Q ==> e.isPending == Some(0) && e.relativePath == Some(RelativePath)
    ensures sdk < Q ==> e == NewEntry(sdk)
  {
    if sdk >= Q then Published(NewEntry(sdk)) else NewEntry(sdk)
  }

  /** Which platform step of `startRecording` throws (or returns null); at
      most the first one that is set takes effect. The last three are the
      cleanup calls, whose exceptions are swallowed. */
  datatype StartFaults = StartFaults(
    insertFails: bool,
    openFails: bool,
    createFails: bool,
    configureFails: bool,
    prepareFails: bool,
    startFails: bool,
    closeThrows: bool,
    updateThrows: bool,
    deleteThrows: bool)
  {
    predicate SetupFails() {
      insertFails || openFails || createFails || configureFails || prepareFails || startFails
    }
  }

  /** Which calls of `stopRecording` throw; all of them are swallowed. */
  datatype StopFaults = StopFaults(stopThrows: bool, resetThrows: bool, closeThrows: bool, updateThrows: bool)

  /** The media store, the open file descriptors and the live audio recorders. */
  class Platform {
    /** `Build.VERSION.SDK_INT`. */
    const sdk: int
    /** Media-store rows by entry id (the id a content uri names). */
    var entries: map<nat, MediaEntry>
    /** Open write descriptors, each with the entry it writes. */
    var descriptors: map<nat, nat>
    /** Recorders created and not yet released. */
    var recorders: set<nat>
    /** The next id handed out, for an entry, a descriptor or a recorder. */
    var nextHandle: nat

    ghost predicate Valid()
      reads this
    {
      (forall id :: id in entries ==> id < nextHandle) &&
      (forall fd :: fd in descriptors ==> fd < nextHandle) &&
      (forall rec :: rec in recorders ==> rec < nextHandle)
    }

    constructor (sdk: int)
      ensures Valid() && this.sdk == sdk
      ensures entries == map[] && descriptors == map[] && recorders == {}
    {
      this.sdk := sdk;
      entries, descriptors, recorders, nextHandle := map[], map[], {}, 0;
    }

    /** `ContentResolver.insert`: a new row, or null (or an exception) on failure. */
    method Insert(values: MediaEntry, fails: bool) returns (uri: Option<nat>)
      requires Valid()
      modifies this
      ensures Valid()
      ensures fails ==> uri == None && entries == old(entries)
      ensures !fails ==> uri == Some(old(nextHandle)) && old(nextHandle) !in old(entries)
      ensures !fails ==> entries == old(entries)[old(nextHandle) := values]
      ensures descriptors == old(descriptors) && recorders == old(recorders)
      ensures nextHandle == if fails then old(nextHandle) else old(nextHandle) + 1
    {
      if fails {
        uri := None;
      } else {
        uri := Some(nextHandle);
        entries := entries[nextHandle := values];
        nextHandle := nextHandle + 1;
      }
    }

    /** `ContentResolver.openFileDescriptor(uri, "w")`: fails when asked to, or when the row is gone. */
    method OpenFileDescriptor(uri: nat, fails: bool) returns (fd: Option<nat>)
      requires Valid()
      modifies this
      ensures Valid()
      ensures fd.None? <==> fails || uri !in entries
      ensures fd.None? ==> descriptors == old(descriptors)
      ensures fd.Some? ==> fd.value == old(nextHandle) && fd.value !in old(descriptors)
      ensures fd.Some? ==> descriptors == old(descriptors)[fd.value := uri]
      ensures entries == old(entries) && recorders == old(recorders)
      ensures nextHandle == if fd.None? then old(nextHandle) else old(nextHandle) + 1
    {
      if fails || uri !in entries {
        fd := None;
      } else {
        fd := Some(nextHandle);
        descriptors := descriptors[nextHandle := uri];
        nextHandle := nextHandle + 1;
      }
    }

    /** `ParcelFileDescriptor.close`; when it throws the descriptor is taken to stay open. */
    method Close(fd: nat, throws: bool)
      requires Valid()
      modifies this
      ensures Valid()
      ensures descriptors == if throws then old(descriptors) else old(descriptors) - {fd}
      ensures entries == old(entries) && recorders == old(recorders) && nextHandle == old(nextHandle)
    {
      if !throws {
        descriptors := descriptors - {fd};
      }
    }

    /** `ContentResolver.update(uri, {IS_PENDING: 0})`. */
    method Publish(uri: nat, throws: bool)
      requires Valid()
      modifies this
      ensures Valid()
      ensures entries == if !throws && uri in old(entries) then old(entries)[uri := Published(old(entries)[uri])] else old(entries)
      ensures descriptors == old(descriptors) && recorders == old(recorders) && nextHandle == old(nextHandle)
    {
      if !throws && uri in entries {
        entries := entries[uri := Published(entries[uri])];
      }
    }

    /** `ContentResolver.delete(uri)`. */
    method Delete(uri: nat, throws: bool)
      requires Valid()
      modifies this
      ensures Valid()
      ensures entries == if throws then old(entries) else old(entries) - {uri}
      ensures descriptors == old(descriptors) && recorders == old(recorders) && nextHandle == old(nextHandle)
    {
      if !throws {
        entries := entries - {uri};
      }
    }

    /** `MediaRecorder(context)` on level S and later, `MediaRecorder()` before: the same here. */
    method NewRecorder(fails: bool) returns (rec: Option<nat>)
      requires Valid()
      modifies this
      ensures Valid()
      ensures fails <==> rec.None?
      ensures rec.None? ==> recorders == old(recorders)
      ensures rec.Some? ==> rec.value == old(nextHandle) && rec.value !in old(recorders)
      ensures rec.Some? ==> recorders == old(recorders) + {rec.value}
      ensures entries == old(entries) && descriptors == old(descriptors)
      ensures nextHandle == if fails then old(nextHandle) else old(nextHandle) + 1
    {
      if fails {
        rec := None;
      } else {
        rec := Some(nextHandle);
        recorders := recorders + {nextHandle};
        nextHandle := nextHandle + 1;
      }
    }

    /** `MediaRecorder.release`. */
    method Release(rec: nat)
      requires Valid()
      modifies this
      ensures Valid()
      ensures recorders == old(recorders) - {rec}
      ensures entries == old(entries) && descriptors == old(descriptors) && nextHandle == old(nextHandle)
    {
      recorders := recorders - {rec};
    }
  }

  /** The process-wide recording variables and the actions on them. */
  class Session {
    const platform: Platform
    var mediaRecorder: Option<nat>
    var isRecording: bool
    var selectedCategory: string
    var currentRecordingUri: Option<nat>
    var currentPfd: Option<nat>

    /**
     * Between actions, either nothing is held and the session is idle, or
     * the session is recording and holds all three handles: an entry still
     * exactly as inserted (so pending from level Q on), a descriptor open on
     * that entry, and a live recorder.
     */
    ghost predicate Valid()
      reads this, platform
    {
      platform.Valid() &&
      (!isRecording ==> mediaRecorder.None? && currentPfd.None? && currentRecordingUri.None?) &&
      (isRecording ==>
        && mediaRecorder.Some? && currentPfd.Some? && currentRecordingUri.Some?
        && currentRecordingUri.value in platform.entries
        && platform.entries[currentRecordingUri.value] == NewEntry(platform.sdk)
        && currentPfd.value in platform.descriptors
        && platform.descriptors[currentPfd.value] == currentRecordingUri.value
        && mediaRecorder.value in platform.recorders)
    }

    /** Recording exactly when all three handles are set. */
    lemma HandlesAgree()
      requires Valid()
      ensures isRecording <==> mediaRecorder.Some? && currentPfd.Some? && currentRecordingUri.Some?
    {
    }

    constructor (platform: Platform)
      requires platform.Valid()
      ensures Valid() && this.platform == platform
      ensures !isRecording && selectedCategory == ""
    {
      this.platform := platform;
      mediaRecorder, isRecording, selectedCategory := None, false, "";
      currentRecordingUri, currentPfd := None, None;
    }

    /** `canRecord`: the microphone permission is granted and a category is selected. */
    function CanRecord(hasMicPermission: bool): bool
      reads this
    {
      hasMicPermission && !IsBlank(selectedCategory)
    }

    /**
     * The status line, computed from this session's own `canRecord`: it never
     * asks to pick a category (a blank selection already fails `canRecord`);
     * it asks for the permission exactly when recording is not possible, and
     * reports recording, or ready, exactly when it is possible and the
     * session is recording, or idle.
     */
    lemma StatusTextCases(hasMicPermission: bool)
      ensures var text := StatusText(CanRecord(hasMicPermission), selectedCategory, isRecording);
        && text != "Selecciona una categoría"
        && (text == "Permiso de micrófono requerido" <==> !CanRecord(hasMicPermission))
        && (text == "Grabando..." <==> CanRecord(hasMicPermission) && isRecording)
        && (text == "Listo" <==> CanRecord(hasMicPermission) && !isRecording)
    {
    }

    /** The recorder screen's collector: a blank selection takes the first sorted option. */
    method SelectFirstIfBlank(sorted: seq<string>)
      requires Valid()
      modifies this
      ensures Valid() && selectedCategory == Selection.AutoSelect(old(selectedCategory), sorted)
      ensures isRecording == old(isRecording) && mediaRecorder == old(mediaRecorder)
      ensures currentPfd == old(currentPfd) && currentRecordingUri == old(currentRecordingUri)
    {
      selectedCategory := Selection.AutoSelect(selectedCategory, sorted);
    }

    /** The dropdown's effect on a new options list, with the dropdown's
        remembered `current` passed in and its new value returned. */
    method ReconcileDropdown(current: string, options: seq<string>) returns (newCurrent: string)
      requires Valid()
      modifies this
      ensures Valid()
      ensures Selection.Picker(newCurrent, selectedCategory)
        == Selection.DropdownEffect(Selection.Picker(current, old(selectedCategory)), options)
      ensures isRecording == old(isRecording) && mediaRecorder == old(mediaRecorder)
      ensures currentPfd == old(currentPfd) && currentRecordingUri == old(currentRecordingUri)
    {
      var picker := Selection.DropdownEffect(Selection.Picker(current, selectedCategory), options);
      newCurrent, selectedCategory := picker.current, picker.selected;
    }

    /** A click on option `opt` of the dropdown. */
    method ChooseOption(current: string, opt: string) returns (newCurrent: string)
      requires Valid()
      modifies this
      ensures Valid()
      ensures Selection.Picker(newCurrent, selectedCategory)
        == Selection.Choose(Selection.Picker(current, old(selectedCategory)), opt)
      ensures isRecording == old(isRecording) && mediaRecorder == old(mediaRecorder)
      ensures currentPfd == old(currentPfd) && currentRecordingUri == old(currentRecordingUri)
    {
      var picker := Selection.Choose(Selection.Picker(current, selectedCategory), opt);
      newCurrent, selectedCategory := picker.current, picker.selected;
    }

    /**
     * `startRecording`, called only while idle. When every setup step
     * succeeds it ends recording, having inserted exactly one entry (the
     * values of `NewEntry`) and opened a descriptor on it and created one
     * recorder. When a step fails it ends idle with nothing held: a recorder
     * it created is released, a descriptor it opened is closed unless the
     * close throws (then it stays open on the inserted entry), and an entry it inserted is deleted unless the delete
     * throws (in which case the entry stays, published when the level
     * allows and the update did not throw); when the insert itself failed,
     * no entry is touched.
     */
    method StartRecording(f: StartFaults)
      requires Valid() && !isRecording
      modifies this, platform
      ensures Valid() && selectedCategory == old(selectedCategory)
      ensures isRecording <==> !f.SetupFails()
      ensures isRecording ==>
        && currentRecordingUri == Some(old(platform.nextHandle))
        && currentRecordingUri.value !in old(platform.entries)
        && platform.entries == old(platform.entries)[currentRecordingUri.value := NewEntry(platform.sdk)]
        && currentPfd.value !in old(platform.descriptors)
        && platform.descriptors == old(platform.descriptors)[currentPfd.value := currentRecordingUri.value]
        && mediaRecorder.value !in old(platform.recorders)
        && platform.recorders == old(platform.recorders) + {mediaRecorder.value}
      ensures !isRecording ==> platform.recorders == old(platform.recorders)
      ensures !isRecording && (f.insertFails || f.openFails || !f.closeThrows) ==>
        platform.descriptors == old(platform.descriptors)
      ensures !isRecording && !f.insertFails && !f.openFails && f.closeThrows ==>
        old(platform.nextHandle) + 1 !in old(platform.descriptors) &&
        platform.descriptors == old(platform.descriptors)[old(platform.nextHandle) + 1 := old(platform.nextHandle)]
      ensures f.insertFails ==> platform.entries == old(platform.entries)
      ensures !f.insertFails && f.SetupFails() ==>
        && old(platform.nextHandle) !in old(platform.entries)
        && platform.entries == if f.deleteThrows
           then old(platform.entries)[old(platform.nextHandle) := Abandoned(platform.sdk, f.updateThrows)]
           else old(platform.entries)
    {
      var ok := TrySetup(f);
      if !ok {
        RollBack(f.closeThrows, f.updateThrows, f.deleteThrows);
      }
    }

    /**
     * The try block of `startRecording`: insert, open, create and configure,
     * stopping at the first step that throws (or returns null). On success
     * the session is recording. On failure it is not, and holds the handles
     * the steps before the failure set: the new entry (ids are handed out in
     * order, so it is the next handle), the descriptor on it, the recorder.
     */
    method TrySetup(f: StartFaults) returns (ok: bool)
      requires Valid() && !isRecording
      modifies this, platform
      ensures platform.Valid() && selectedCategory == old(selectedCategory)
      ensures ok <==> !f.SetupFails()
      ensures ok ==> Valid() && isRecording
      ensures !ok ==> !isRecording
      ensures currentRecordingUri == if f.insertFails then None else Some(old(platform.nextHandle))
      ensures currentPfd == if f.insertFails || f.openFails then None else Some(old(platform.nextHandle) + 1)
      ensures mediaRecorder == if f.insertFails || f.openFails || f.createFails then None
        else Some(old(platform.nextHandle) + 2)
      ensures platform.entries == if f.insertFails then old(platform.entries)
        else old(platform.entries)[old(platform.nextHandle) := NewEntry(platform.sdk)]
      ensures platform.descriptors == if currentPfd.None? then old(platform.descriptors)
        else old(platform.descriptors)[old(platform.nextHandle) + 1 := old(platform.nextHandle)]
      ensures platform.recorders == if mediaRecorder.None? then old(platform.recorders)
        else old(platform.recorders) + {old(platform.nextHandle) + 2}
    {
      var uri := platform.Insert(NewEntry(platform.sdk), f.insertFails);
      if uri.None? {
        return false;
      }
      currentRecordingUri := uri;
      var pfd := platform.OpenFileDescriptor(uri.value, f.openFails);
      if pfd.None? {
        return false;
      }
      currentPfd := pfd;
      var recorder := platform.NewRecorder(f.createFails);
      if recorder.None? {
        return false;
      }
      mediaRecorder := recorder;
      // setAudioSource .. setOutputFile, then prepare, then start
      if f.configureFails || f.prepareFails || f.startFails {
        return false;
      }
      isRecording := true;
      return true;
    }

    /**
     * The catch block of `startRecording`: release the recorder, close the
     * descriptor, and for an inserted entry clear its pending flag (level Q
     * on) and then delete it; every handle ends null.
     */
    method RollBack(closeThrows: bool, updateThrows: bool, deleteThrows: bool)
      requires platform.Valid()
      modifies this, platform
      ensures platform.Valid()
      ensures !isRecording && mediaRecorder.None? && currentPfd.None? && currentRecordingUri.None?
      ensures selectedCategory == old(selectedCategory)
      ensures platform.recorders == if old(mediaRecorder).Some?
        then old(platform.recorders) - {old(mediaRecorder).value} else old(platform.recorders)
      ensures platform.descriptors == if old(currentPfd).Some? && !closeThrows
        then old(platform.descriptors) - {old(currentPfd).value} else old(platform.descriptors)
      ensures old(currentRecordingUri).None? ==> platform.entries == old(platform.entries)
      ensures old(currentRecordingUri).Some? ==>
        var id := old(currentRecordingUri).value;
        && (!deleteThrows ==> platform.entries == old(platform.entries) - {id})
        && (deleteThrows && platform.sdk >= Q && !updateThrows && id in old(platform.entries) ==>
              platform.entries == old(platform.entries)[id := Published(old(platform.entries)[id])])
        && (deleteThrows && (platform.sdk < Q || updateThrows || id !in old(platform.entries)) ==>
              platform.entries == old(platform.entries))
    {
      isRecording := false;
      if mediaRecorder.Some? {
        platform.Release(mediaRecorder.value);
      }
      mediaRecorder := None;
      if currentPfd.Some? {
        platform.Close(currentPfd.value, closeThrows);
      }
      currentPfd := None;
      if currentRecordingUri.Some? {
        if platform.sdk >= Q {
          platform.Publish(currentRecordingUri.value, updateThrows);
        }
        platform.Delete(currentRecordingUri.value, deleteThrows);
      }
      currentRecordingUri := None;
    }

    /**
     * `stopRecording`: whatever throws, it ends idle with every handle null.
     * The recorder is released unless its `stop` or `reset` threw (release
     * is then skipped); the descriptor is closed unless that throws; from
     * level Q the entry is published unless the update throws. No entry is
     * ever deleted, and when idle nothing is touched.
     */
    method StopRecording(f: StopFaults)
      requires Valid()
      modifies this, platform
      ensures Valid() && !isRecording && selectedCategory == old(selectedCategory)
      ensures platform.entries.Keys == old(platform.entries).Keys
      ensures !old(isRecording) ==>
        platform.entries == old(platform.entries) &&
        platform.descriptors == old(platform.descriptors) &&
        platform.recorders == old(platform.recorders)
      ensures old(isRecording) ==>
        var id := old(currentRecordingUri).value;
        && platform.entries == (if platform.sdk >= Q && !f.updateThrows
             then old(platform.entries)[id := Finished(platform.sdk)] else old(platform.entries))
        && platform.descriptors == (if f.closeThrows
             then old(platform.descriptors) else old(platform.descriptors) - {old(currentPfd).value})
        && platform.recorders == (if f.stopThrows || f.resetThrows
             then old(platform.recorders) else old(platform.recorders) - {old(mediaRecorder).value})
    {
      if mediaRecorder.Some? && !(f.stopThrows || f.resetThrows) {
        platform.Release(mediaRecorder.value);
      }
      mediaRecorder := None;
      isRecording := false;
      if currentPfd.Some? {
        platform.Close(currentPfd.value, f.closeThrows);
      }
      currentPfd := None;
      if platform.sdk >= Q && currentRecordingUri.Some? {
        platform.Publish(currentRecordingUri.value, f.updateThrows);
      }
      currentRecordingUri := None;
    }

    /**
     * The record button. Without `canRecord` it only asks for the
     * permission; otherwise it starts when idle and stops when recording,
     * with the effects `StartRecording` and `StopRecording` promise.
     */
    method OnButtonClick(hasMicPermission: bool, start: StartFaults, stop: StopFaults)
      returns (permissionRequested: bool)
      requires Valid()
      modifies this, platform
      ensures Valid() && selectedCategory == old(selectedCategory)
      ensures permissionRequested <==> !old(CanRecord(hasMicPermission))
      ensures permissionRequested ==>
        isRecording == old(isRecording) && mediaRecorder == old(mediaRecorder) &&
        currentPfd == old(currentPfd) && currentRecordingUri == old(currentRecordingUri) &&
        unchanged(platform)
      ensures !permissionRequested && !old(isRecording) ==>
        && (isRecording <==> !start.SetupFails())
        && (isRecording ==>
              && currentRecordingUri == Some(old(platform.nextHandle))
              && currentRecordingUri.value !in old(platform.entries)
              && platform.entries == old(platform.entries)[currentRecordingUri.value := NewEntry(platform.sdk)]
              && currentPfd.value !in old(platform.descriptors)
              && platform.descriptors == old(platform.descriptors)[currentPfd.value := currentRecordingUri.value]
              && mediaRecorder.value !in old(platform.recorders)
              && platform.recorders == old(platform.recorders) + {mediaRecorder.value})
        && (!isRecording ==> platform.recorders == old(platform.recorders))
        && (!isRecording && (start.insertFails || start.openFails || !start.closeThrows) ==>
              platform.descriptors == old(platform.descriptors))
        && (!isRecording && !start.insertFails && !start.openFails && start.closeThrows ==>
              && old(platform.nextHandle) + 1 !in old(platform.descriptors)
              && platform.descriptors == old(platform.descriptors)[old(platform.nextHandle) + 1 := old(platform.nextHandle)])
        && (start.insertFails ==> platform.entries == old(platform.entries))
        && (!start.insertFails && start.SetupFails() ==>
              && old(platform.nextHandle) !in old(platform.entries)
              && platform.entries == if start.deleteThrows
                 then old(platform.entries)[old(platform.nextHandle) := Abandoned(platform.sdk, start.updateThrows)]
                 else old(platform.entries))
      ensures !permissionRequested && old(isRecording) ==>
        var id := old(currentRecordingUri).value;
        && !isRecording
        && platform.entries == (if platform.sdk >= Q && !stop.updateThrows
             then old(platform.entries)[id := Finished(platform.sdk)] else old(platform.entries))
        && platform.descriptors == (if stop.closeThrows
             then old(platform.descriptors) else old(platform.descriptors) - {old(currentPfd).value})
        && platform.recorders == (if stop.stopThrows || stop.resetThrows
             then old(platform.recorders) else old(platform.recorders) - {old(mediaRecorder).value})
    {
      if !CanRecord(hasMicPermission) {
        permissionRequested := true;
        return;
      }
      permissionRequested := false;
      if !isRecording {
        StartRecording(start);
      } else {
        StopRecording(stop);
      }
    }
  }

  /** The status line beside the button, first matching case wins. */
  function StatusText(canRecord: bool, selectedCategory: string, isRecording: bool): (r: string)
    ensures r == "Permiso de micrófono requerido" <==> !canRecord
    ensures r == "Selecciona una categoría" <==> canRecord && IsBlank(selectedCategory)
    ensures r == "Grabando..." <==> canRecord && !IsBlank(selectedCategory) && isRecording
    ensures r == "Listo" <==> canRecord && !IsBlank(selectedCategory) && !isRecording
  {
    if !canRecord then "Permiso de micrófono requerido"
    else if IsBlank(selectedCategory) then "Selecciona una categoría"
    else if isRecording then "Grabando..."
    else "Listo"
  }

  /**
   * Two clicks of the record button with recording possible and no fault
   * anywhere: idle, recording, idle again, and the store gains exactly one
   * entry, finished (published from level Q on); nothing else is left open
   * or live.
   */
  method RecordOnce(s: Session, hasMicPermission: bool)
    requires s.Valid() && !s.isRecording && s.CanRecord(hasMicPermission)
    modifies s, s.platform
    ensures s.Valid() && !s.isRecording
    ensures old(s.platform.nextHandle) !in old(s.platform.entries)
    ensures s.platform.entries == old(s.platform.entries)[old(s.platform.nextHandle) := Finished(s.platform.sdk)]
    ensures s.platform.descriptors == old(s.platform.descriptors)
    ensures s.platform.recorders == old(s.platform.recorders)
  {
    var clean := StartFaults(false, false, false, false, false, false, false, false, false);
    var cleanStop := StopFaults(false, false, false, false);
    var requested := s.OnButtonClick(hasMicPermission, clean, cleanStop);
    assert s.isRecording;
    requested := s.OnButtonClick(hasMicPermission, clean, cleanStop);
  }
}
