/**
 * microphoneDevices.ts: the microphone controller. Each stretch of code between two awaits is one method;
 * what it does to the controller's fields is one function on Fields.
 */
module MicrophoneDevices {
  import opened MachineInts

  datatype Phase = Idle | Loading | Ready | Failed

  datatype ProbePhase = NotProbed | Probing | Complete | ProbeFailed

  datatype Availability = Unknown | Usable | Unselected | Disconnected | NoDevice | Broken

  datatype CaptureMode = Smart | MicOnly | SystemOnly

  datatype Device = Device(uid: string, name: string, isConnected: bool)

  /** A probe answer, with the device it was asked of. */
  datatype ProbeResult = ProbeResult(obtainedFor: string, report: string)

  datatype Config = Config(microphoneUid: Option<string>, microphoneName: Option<string>, captureMode: string)

  datatype Ui = Ui(
    phase: Phase, availability: Availability, devices: seq<Device>,
    selectedUid: Option<string>, selectedName: Option<string>, captureMode: CaptureMode,
    error: Option<string>, refreshing: bool, saving: bool, locked: bool,
    probePhase: ProbePhase, probeResult: Option<ProbeResult>, probeError: Option<string>, probeCompletedAt: Option<nat>)

  const INITIAL_UI := Ui(Idle, Unknown, [], None, None, Smart, None, false, false, false, NotProbed, None, None, None)

  const LOCKED_MESSAGE := "microphone cannot change while recording"
  const UNAVAILABLE_MESSAGE := "selected microphone is unavailable"
  const CANNOT_PROBE_MESSAGE := "selected microphone cannot be tested"

  /** loadPromise: absent, settled but not yet cleared, or in flight with its issue number. */
  datatype LoadPromise = NoLoad | LoadInFlight(generation: nat) | LoadSettled

  /** The controller's private fields; selectionQueue is the issue number of the newest queued save, 0 for none. */
  datatype Fields = Fields(
    ui: Ui, loadPromise: LoadPromise, refreshGeneration: nat, selectionGeneration: nat, selectionQueue: nat,
    probeGeneration: nat)

  const INITIAL_FIELDS := Fields(INITIAL_UI, NoLoad, 0, 0, 0, 0)

  /** What one accepted selection captured. `after` is the queued save it waits for. */
  datatype Selection = Selection(
    generation: nat, uid: Option<string>, name: Option<string>, previousUid: Option<string>,
    previousName: Option<string>, after: nat)

  datatype ProbeCall = ProbeCall(generation: nat, uid: string)

  datatype StartInput = StartInput(mode: CaptureMode, microphoneUid: Option<string>, availability: Availability)

  // Pure helpers

  /** JavaScript truthiness of `string | null`. */
  predicate Truthy(uid: Option<string>) {
    uid.Some? && uid.value != ""
  }

  predicate HasConnected(devices: seq<Device>, uid: Option<string>) {
    exists i :: 0 <= i < |devices| && Some(devices[i].uid) == uid && devices[i].isConnected
  }

  function AvailabilityOf(phase: Phase, devices: seq<Device>, selectedUid: Option<string>): Availability {
    if phase == Idle || phase == Loading then Unknown
    else if phase == Failed then Broken
    else if forall i :: 0 <= i < |devices| ==> !devices[i].isConnected then
      if Truthy(selectedUid) then Disconnected else NoDevice
    else if !Truthy(selectedUid) then Unselected
    else if HasConnected(devices, selectedUid) then Usable
    else Disconnected
  }

  function AvailabilityFor(ui: Ui): Availability {
    AvailabilityOf(ui.phase, ui.devices, ui.selectedUid)
  }

  /** `ready` is exactly that the list is loaded and the selected microphone is connected. */
  lemma UsableMeansConnected(ui: Ui)
    ensures AvailabilityFor(ui) == Usable
        <==> ui.phase == Ready && Truthy(ui.selectedUid) && HasConnected(ui.devices, ui.selectedUid)
  {
  }

  predicate AnyConnected(devices: seq<Device>) {
    exists i :: 0 <= i < |devices| && devices[i].isConnected
  }

  /** What each of the six availabilities says about the list and the selection. */
  lemma AvailabilityMeans(ui: Ui)
    ensures var shown, selected := AvailabilityFor(ui), ui.selectedUid.Some? && ui.selectedUid.value != "";
            var connected := exists i :: 0 <= i < |ui.devices| && ui.devices[i].isConnected
                                         && Some(ui.devices[i].uid) == ui.selectedUid;
            && (shown == Unknown <==> ui.phase == Idle || ui.phase == Loading)
            && (shown == Broken <==> ui.phase == Failed)
            && (shown == NoDevice <==> ui.phase == Ready && !selected && !AnyConnected(ui.devices))
            && (shown == Unselected <==> ui.phase == Ready && !selected && AnyConnected(ui.devices))
            && (shown == Disconnected <==> ui.phase == Ready && selected && !connected)
            && (shown == Usable <==> ui.phase == Ready && selected && connected)
  {
    assert AnyConnected(ui.devices) <==> exists i :: 0 <= i < |ui.devices| && ui.devices[i].isConnected;
  }

  function NormalizeCaptureMode(mode: string): CaptureMode {
    if mode == "mic-only" || mode == "mic_only" then MicOnly
    else if mode == "system-only" || mode == "system_only" then SystemOnly
    else Smart
  }

  /** The two spellings of each narrow mode are its only ones; anything else is the smart mode. */
  lemma CaptureModeMeans(mode: string)
    ensures NormalizeCaptureMode(mode) == MicOnly <==> mode in {"mic-only", "mic_only"}
    ensures NormalizeCaptureMode(mode) == SystemOnly <==> mode in {"system-only", "system_only"}
    ensures NormalizeCaptureMode(mode) == Smart
        <==> mode !in {"mic-only", "mic_only", "system-only", "system_only"}
  {
    assert "mic-only"[0] == 'm' && "mic_only"[0] == 'm' && "system-only"[0] == 's' && "system_only"[0] == 's';
  }

  /** update(): every write recomputes the availability. */
  function Updated(candidate: Ui): Ui {
    candidate.(availability := AvailabilityFor(candidate))
  }

  function WithoutProbe(ui: Ui): Ui {
    ui.(probePhase := NotProbed, probeResult := None, probeError := None, probeCompletedAt := None)
  }

  /** The first connected device with this uid. */
  predicate FirstConnected(devices: seq<Device>, uid: string, i: nat) {
    && i < |devices| && devices[i].uid == uid && devices[i].isConnected
    && forall j :: 0 <= j < i ==> !(devices[j].uid == uid && devices[j].isConnected)
  }

  function FindConnected(devices: seq<Device>, uid: string): (r: Option<Device>)
    ensures r.Some? ==> exists i: nat :: FirstConnected(devices, uid, i) && r == Some(devices[i])
    ensures r.None? <==> !HasConnected(devices, Some(uid))
  {
    if devices == [] then None
    else if devices[0].uid == uid && devices[0].isConnected then Some(devices[0])
    else
      var rest := FindConnected(devices[1..], uid);
      assert HasConnected(devices[1..], Some(uid)) ==> HasConnected(devices, Some(uid)) by {
        if i :| 0 <= i < |devices[1..]| && Some(devices[1..][i].uid) == Some(uid) && devices[1..][i].isConnected {
          assert devices[i + 1] == devices[1..][i];
        }
      }
      assert forall i :: 0 < i < |devices| ==> devices[i] == devices[1..][i - 1];
      assert rest.Some? ==> exists i: nat :: FirstConnected(devices, uid, i) && rest == Some(devices[i]) by {
        if i: nat :| FirstConnected(devices[1..], uid, i) && rest == Some(devices[1..][i]) {
          assert FirstConnected(devices, uid, i + 1);
        }
      }
      rest
  }

  // What each stretch of code does to the fields

  predicate LoadIssues(f: Fields) {
    f.ui.phase != Ready && f.loadPromise == NoLoad
  }

  function LoadCalled(f: Fields): Fields {
    if !LoadIssues(f) then f
    else
      f.(refreshGeneration := f.refreshGeneration + 1,
         ui := Updated(f.ui.(phase := Loading, error := None)),
         loadPromise := LoadInFlight(f.refreshGeneration + 1))
  }

  function LoadAnswered(f: Fields, generation: nat, answer: Result<(Config, seq<Device>), string>): Fields {
    var settled := f.(loadPromise := LoadSettled);
    match answer
    case Ok((config, devices)) =>
      var loaded := f.ui.(phase := Ready, selectedUid := config.microphoneUid, selectedName := config.microphoneName,
                          captureMode := NormalizeCaptureMode(config.captureMode), error := None);
      settled.(ui := Updated(if generation == f.refreshGeneration then loaded.(devices := devices) else loaded))
    case Err(reason) =>
      if generation != f.refreshGeneration then settled
      else settled.(ui := Updated(f.ui.(phase := Failed, error := Some(reason))))
  }

  function LoadCleared(f: Fields): Fields {
    f.(loadPromise := NoLoad)
  }

  function RefreshCalled(f: Fields): Fields {
    f.(refreshGeneration := f.refreshGeneration + 1, ui := Updated(f.ui.(refreshing := true, error := None)))
  }

  function RefreshAnswered(f: Fields, generation: nat, answer: Result<seq<Device>, string>): Fields {
    if generation != f.refreshGeneration then f
    else match answer
      case Ok(devices) =>
        var connected := HasConnected(devices, f.ui.selectedUid);
        var refreshed := f.ui.(phase := Ready, devices := devices, refreshing := false, error := None);
        if connected then f.(ui := Updated(refreshed))
        else f.(probeGeneration := f.probeGeneration + 1, ui := Updated(WithoutProbe(refreshed)))
      case Err(reason) => f.(ui := Updated(f.ui.(phase := Failed, refreshing := false, error := Some(reason))))
  }

  predicate SelectAccepted(f: Fields, uid: Option<string>) {
    !f.ui.locked && (uid.Some? ==> HasConnected(f.ui.devices, uid))
  }

  function SelectionMade(f: Fields, uid: Option<string>): Selection {
    var device := if uid.Some? then FindConnected(f.ui.devices, uid.value) else None;
    Selection(f.selectionGeneration + 1, uid, if device.Some? then Some(device.value.name) else None,
              f.ui.selectedUid, f.ui.selectedName, f.selectionQueue)
  }

  function SelectCalled(f: Fields, uid: Option<string>): Fields {
    if f.ui.locked then f.(ui := Updated(f.ui.(error := Some(LOCKED_MESSAGE))))
    else if uid.Some? && !HasConnected(f.ui.devices, uid)
    then f.(ui := Updated(f.ui.(error := Some(UNAVAILABLE_MESSAGE))))
    else
      var selection := SelectionMade(f, uid);
      f.(selectionGeneration := selection.generation,
         probeGeneration := f.probeGeneration + 1,
         ui := Updated(WithoutProbe(f.ui.(selectedUid := uid, selectedName := selection.name,
                                          saving := true, error := None))),
         selectionQueue := selection.generation)
  }

  /** After `await operation`: only the newest selection reports, and only its failure rolls back. */
  function SelectionSettled(f: Fields, selection: Selection, outcome: Result<(), string>): Fields {
    if selection.generation != f.selectionGeneration then f
    else match outcome
      case Ok(_) => f.(ui := Updated(f.ui.(saving := false, error := None)))
      case Err(reason) =>
        f.(ui := Updated(f.ui.(selectedUid := selection.previousUid, selectedName := selection.previousName,
                               saving := false, error := Some(reason))))
  }

  /** `probing` is whether the host supplies a probe at all. */
  predicate ProbeIssues(f: Fields, supported: bool) {
    !f.ui.locked && f.ui.availability == Usable && Truthy(f.ui.selectedUid) && supported
  }

  function ProbeCalled(f: Fields, supported: bool): Fields {
    if !ProbeIssues(f, supported) then
      f.(ui := Updated(f.ui.(probePhase := ProbeFailed, probeResult := None, probeError := Some(CANNOT_PROBE_MESSAGE))))
    else
      f.(probeGeneration := f.probeGeneration + 1, ui := Updated(WithoutProbe(f.ui).(probePhase := Probing)))
  }

  function ProbeAnswered(f: Fields, call: ProbeCall, answer: Result<ProbeResult, string>, now: nat): Fields {
    if call.generation != f.probeGeneration || f.ui.selectedUid != Some(call.uid) then f
    else match answer
      case Ok(result) =>
        f.(ui := Updated(f.ui.(probePhase := Complete, probeResult := Some(result),
                               probeError := None, probeCompletedAt := Some(now))))
      case Err(reason) =>
        f.(ui := Updated(f.ui.(probePhase := ProbeFailed, probeResult := None,
                               probeError := Some(reason), probeCompletedAt := None)))
  }

  /** Taking over a stored configuration drops the probe exactly when the selection changes. */
  function ConfigTaken(f: Fields, config: Config): Fields {
    var taken := f.ui.(selectedUid := config.microphoneUid, selectedName := config.microphoneName,
                       captureMode := NormalizeCaptureMode(config.captureMode));
    if f.ui.selectedUid != config.microphoneUid then
      f.(probeGeneration := f.probeGeneration + 1, ui := Updated(WithoutProbe(taken)))
    else
      f.(ui := Updated(taken))
  }

  function StartInputOf(f: Fields, config: Config): StartInput {
    var ui := ConfigTaken(f, config).ui;
    StartInput(ui.captureMode, ui.selectedUid, ui.availability)
  }

  function LockSet(f: Fields, locked: bool): Fields {
    f.(ui := Updated(f.ui.(locked := locked)))
  }

  // What holds of every stretch of code

  predicate AvailabilityCurrent(f: Fields) {
    f.ui.availability == AvailabilityFor(f.ui)
  }

  /** The availability shown stays that of the other fields, and no generation number falls. */
  predicate Follows(before: Fields, after: Fields) {
    && (AvailabilityCurrent(before) ==> AvailabilityCurrent(after))
    && before.refreshGeneration <= after.refreshGeneration && before.selectionGeneration <= after.selectionGeneration
    && before.probeGeneration <= after.probeGeneration
  }

  predicate ProbeDropped(before: Fields, after: Fields) {
    && after.probeGeneration == before.probeGeneration + 1
    && after.ui.probePhase == NotProbed && after.ui.probeResult == None && after.ui.probeError == None
    && after.ui.probeCompletedAt == None
  }

  /** A new selection leaves no probe of the old one behind, and none in flight that could still answer. */
  predicate ProbeFollowsSelection(before: Fields, after: Fields) {
    after.ui.selectedUid != before.ui.selectedUid ==> ProbeDropped(before, after)
  }

  predicate SameProbe(before: Fields, after: Fields) {
    && after.probeGeneration == before.probeGeneration && after.ui.probePhase == before.ui.probePhase
    && after.ui.probeResult == before.ui.probeResult
  }

  /** Nothing was selected, saved or probed. */
  predicate SameCounters(before: Fields, after: Fields) {
    && after.selectionGeneration == before.selectionGeneration && after.selectionQueue == before.selectionQueue
    && after.probeGeneration == before.probeGeneration
  }

  // The controller

  class MicrophoneDeviceController {
    var state: Ui
    var loadPromise: LoadPromise
    var refreshGeneration: nat
    var selectionGeneration: nat
    var selectionQueue: nat
    var probeGeneration: nat

    constructor ()
      ensures View() == INITIAL_FIELDS
    {
      state := INITIAL_UI;
      loadPromise := NoLoad;
      refreshGeneration := 0;
      selectionGeneration := 0;
      selectionQueue := 0;
      probeGeneration := 0;
    }

    ghost function View(): Fields
      reads this
    {
      Fields(state, loadPromise, refreshGeneration, selectionGeneration, selectionQueue, probeGeneration)
    }

    method Update(candidate: Ui)
      modifies this`state
      ensures state == Updated(candidate)
    {
      state := candidate.(availability := AvailabilityFor(candidate));
    }

    /** load() up to its first await; None when it joins an earlier load or finds nothing to do. */
    method Load() returns (issued: Option<nat>)
      modifies this
      ensures View() == LoadCalled(old(View()))
      ensures issued == if LoadIssues(old(View())) then Some(refreshGeneration) else None
      ensures Follows(old(View()), View()) && ProbeFollowsSelection(old(View()), View())
      ensures if old(state.phase) == Ready || old(loadPromise) != NoLoad then issued == None && View() == old(View())
              else
                && issued == Some(old(refreshGeneration) + 1) && loadPromise == LoadInFlight(refreshGeneration)
                && refreshGeneration == old(refreshGeneration) + 1
                && state == old(state).(phase := Loading, error := None, availability := Unknown)
                && SameCounters(old(View()), View())
    {
      if state.phase == Ready || loadPromise != NoLoad {
        return None;
      }
      refreshGeneration := refreshGeneration + 1;
      Update(state.(phase := Loading, error := None));
      loadPromise := LoadInFlight(refreshGeneration);
      return Some(refreshGeneration);
    }

    method LoadAnswer(generation: nat, answer: Result<(Config, seq<Device>), string>)
      modifies this
      ensures View() == LoadAnswered(old(View()), generation, answer)
      ensures Follows(old(View()), View()) && SameProbe(old(View()), View())
      ensures state.devices != old(state.devices) ==>
          generation == refreshGeneration && answer.Ok? && state.devices == answer.value.1
      ensures state.selectedUid != old(state.selectedUid) ==>
          answer.Ok? && state.selectedUid == answer.value.0.microphoneUid
      ensures loadPromise == LoadSettled && refreshGeneration == old(refreshGeneration)
      ensures SameCounters(old(View()), View())
      ensures match answer
              case Ok((config, devices)) =>
                state == old(state).(
                  phase := Ready, selectedUid := config.microphoneUid, selectedName := config.microphoneName,
                  captureMode := NormalizeCaptureMode(config.captureMode), error := None,
                  devices := if generation == refreshGeneration then devices else old(state.devices),
                  availability := state.availability)
              case Err(reason) =>
                state == if generation == refreshGeneration
                         then old(state).(phase := Failed, error := Some(reason), availability := Broken)
                         else old(state)
    {
      match answer {
        case Ok((config, devices)) =>
          var patch :=
            state.(phase := Ready, selectedUid := config.microphoneUid, selectedName := config.microphoneName,
                   captureMode := NormalizeCaptureMode(config.captureMode), error := None);
          if generation == refreshGeneration {
            patch := patch.(devices := devices);
          }
          Update(patch);
        case Err(reason) =>
          if generation == refreshGeneration {
            Update(state.(phase := Failed, error := Some(reason)));
          }
      }
      loadPromise := LoadSettled;
    }

    method LoadFinally()
      modifies this
      ensures View() == LoadCleared(old(View()))
      ensures View() == old(View()).(loadPromise := NoLoad)
    {
      loadPromise := NoLoad;
    }

    method Refresh() returns (issued: nat)
      modifies this
      ensures View() == RefreshCalled(old(View()))
      ensures issued == refreshGeneration
      ensures Follows(old(View()), View()) && ProbeFollowsSelection(old(View()), View())
      ensures refreshGeneration == old(refreshGeneration) + 1 && loadPromise == old(loadPromise)
      ensures state == old(state).(refreshing := true, error := None, availability := state.availability)
      ensures SameCounters(old(View()), View())
    {
      refreshGeneration := refreshGeneration + 1;
      Update(state.(refreshing := true, error := None));
      return refreshGeneration;
    }

    method RefreshAnswer(generation: nat, answer: Result<seq<Device>, string>)
      modifies this
      ensures View() == RefreshAnswered(old(View()), generation, answer)
      ensures Follows(old(View()), View()) && ProbeFollowsSelection(old(View()), View())
      ensures state.devices != old(state.devices) ==>
          generation == refreshGeneration && answer.Ok? && state.devices == answer.value
      ensures !SameProbe(old(View()), View()) ==>
                ProbeDropped(old(View()), View()) && state.phase == Ready
                  && !HasConnected(state.devices, state.selectedUid)
      ensures generation != refreshGeneration ==> View() == old(View())
      ensures refreshGeneration == old(refreshGeneration) && loadPromise == old(loadPromise)
      ensures selectionGeneration == old(selectionGeneration) && selectionQueue == old(selectionQueue)
      ensures generation == refreshGeneration && answer.Err? ==>
                && probeGeneration == old(probeGeneration)
                && state == old(state).(phase := Failed, refreshing := false, error := Some(answer.error),
                                        availability := Broken)
      ensures generation == refreshGeneration && answer.Ok? ==>
                var shown := old(state).(phase := Ready, devices := answer.value, refreshing := false, error := None,
                                         availability := state.availability);
                if exists i :: 0 <= i < |answer.value| && Some(answer.value[i].uid) == state.selectedUid
                               && answer.value[i].isConnected
                then state == shown && probeGeneration == old(probeGeneration)
                else
                  && ProbeDropped(old(View()), View())
                  && state == shown.(probePhase := NotProbed, probeResult := None, probeError := None,
                                     probeCompletedAt := None)
    {
      if generation != refreshGeneration {
        return;
      }
      match answer {
        case Ok(devices) =>
          var refreshed := state.(phase := Ready, devices := devices, refreshing := false, error := None);
          if HasConnected(devices, state.selectedUid) {
            Update(refreshed);
          } else {
            probeGeneration := probeGeneration + 1;
            Update(WithoutProbe(refreshed));
          }
        case Err(reason) =>
          Update(state.(phase := Failed, refreshing := false, error := Some(reason)));
      }
    }

    /** select() up to its await; the result is what the queued save and the continuation captured. */
    method Select(uid: Option<string>) returns (selection: Option<Selection>)
      modifies this
      ensures View() == SelectCalled(old(View()), uid)
      ensures selection == if SelectAccepted(old(View()), uid) then Some(SelectionMade(old(View()), uid)) else None
      ensures Follows(old(View()), View()) && ProbeFollowsSelection(old(View()), View())
      ensures selection.Some? <==> selectionGeneration == old(selectionGeneration) + 1
      ensures selection.Some? ==>
          state.selectedUid == uid && state.saving && (uid.Some? ==> HasConnected(state.devices, uid))
      ensures selection.None? ==>
          state.selectedUid == old(state.selectedUid) && state.saving == old(state.saving)
          && SameProbe(old(View()), View())
      ensures refreshGeneration == old(refreshGeneration) && loadPromise == old(loadPromise)
      ensures selection.None? <==>
                || old(state.locked)
                || (uid.Some? && forall i :: 0 <= i < |state.devices| && state.devices[i].isConnected ==>
                      state.devices[i].uid != uid.value)
      ensures selection.None? ==>
                && SameCounters(old(View()), View())
                && state == old(state).(
                     error := Some(if old(state.locked) then LOCKED_MESSAGE else UNAVAILABLE_MESSAGE),
                     availability := state.availability)
      ensures selection.Some? ==>
                && selection.value.generation == selectionGeneration == selectionQueue
                && selection.value.uid == uid && selection.value.previousUid == old(state.selectedUid)
                && selection.value.previousName == old(state.selectedName)
                && selection.value.after == old(selectionQueue)
                && (if uid.None? then selection.value.name.None?
                    else exists i: nat :: FirstConnected(state.devices, uid.value, i)
                                     && selection.value.name == Some(state.devices[i].name))
                && probeGeneration == old(probeGeneration) + 1
                && state == old(state).(
                     selectedUid := uid, selectedName := selection.value.name, saving := true, error := None,
                     probePhase := NotProbed, probeResult := None, probeError := None, probeCompletedAt := None,
                     availability := state.availability)
    {
      if state.locked {
        Update(state.(error := Some(LOCKED_MESSAGE)));
        return None;
      }
      var device: Option<Device> := None;
      if uid.Some? {
        device := FindConnected(state.devices, uid.value);
        if device.None? {
          Update(state.(error := Some(UNAVAILABLE_MESSAGE)));
          return None;
        }
      }
      selectionGeneration := selectionGeneration + 1;
      probeGeneration := probeGeneration + 1;
      var previousUid, previousName := state.selectedUid, state.selectedName;
      var selectedName := if device.Some? then Some(device.value.name) else None;
      Update(state.(selectedUid := uid, selectedName := selectedName, saving := true, error := None,
                    probePhase := NotProbed, probeResult := None, probeError := None, probeCompletedAt := None));
      selection := Some(Selection(selectionGeneration, uid, selectedName, previousUid, previousName, selectionQueue));
      selectionQueue := selectionGeneration;
    }

    method SelectionAnswer(selection: Selection, outcome: Result<(), string>)
      modifies this
      ensures View() == SelectionSettled(old(View()), selection, outcome)
      ensures Follows(old(View()), View()) && SameProbe(old(View()), View())
      ensures state.selectedUid != old(state.selectedUid) ==>
                selection.generation == selectionGeneration && outcome.Err?
                  && state.selectedUid == selection.previousUid
      ensures state.saving == (old(state.saving) && selection.generation != selectionGeneration)
      ensures SameCounters(old(View()), View())
      ensures refreshGeneration == old(refreshGeneration) && loadPromise == old(loadPromise)
      ensures state == if selection.generation != selectionGeneration then old(state)
                       else match outcome
                         case Ok(_) =>
                           old(state).(saving := false, error := None, availability := state.availability)
                         case Err(reason) =>
                           old(state).(selectedUid := selection.previousUid, selectedName := selection.previousName,
                                       saving := false, error := Some(reason), availability := state.availability)
    {
      if selection.generation == selectionGeneration {
        match outcome {
          case Ok(_) => Update(state.(saving := false, error := None));
          case Err(reason) =>
            Update(state.(selectedUid := selection.previousUid, selectedName := selection.previousName,
                          saving := false, error := Some(reason)));
        }
      }
    }

    method Probe(supported: bool) returns (call: Option<ProbeCall>)
      modifies this
      ensures View() == ProbeCalled(old(View()), supported)
      ensures call == if ProbeIssues(old(View()), supported)
                      then Some(ProbeCall(probeGeneration, old(state.selectedUid.value))) else None
      ensures Follows(old(View()), View()) && ProbeFollowsSelection(old(View()), View())
      ensures call.Some? ==> old(AvailabilityCurrent(View())) ==> HasConnected(state.devices, state.selectedUid)
      ensures refreshGeneration == old(refreshGeneration) && loadPromise == old(loadPromise)
      ensures selectionGeneration == old(selectionGeneration) && selectionQueue == old(selectionQueue)
      ensures call.Some? <==>
                && !old(state.locked) && old(state.availability) == Usable && supported
                && state.selectedUid.Some? && state.selectedUid.value != ""
      ensures call.Some? ==>
                && call.value == ProbeCall(probeGeneration, state.selectedUid.value)
                && probeGeneration == old(probeGeneration) + 1
                && state == old(state).(probePhase := Probing, probeResult := None, probeError := None,
                                        probeCompletedAt := None, availability := state.availability)
      ensures call.None? ==>
                && probeGeneration == old(probeGeneration)
                && state == old(state).(probePhase := ProbeFailed, probeResult := None,
                                        probeError := Some(CANNOT_PROBE_MESSAGE), availability := state.availability)
    {
      var uid := state.selectedUid;
      if state.locked || state.availability != Usable || !Truthy(uid) || !supported {
        Update(state.(probePhase := ProbeFailed, probeResult := None, probeError := Some(CANNOT_PROBE_MESSAGE)));
        return None;
      }
      probeGeneration := probeGeneration + 1;
      Update(state.(probePhase := Probing, probeResult := None, probeError := None, probeCompletedAt := None));
      return Some(ProbeCall(probeGeneration, uid.value));
    }

    method ProbeAnswer(call: ProbeCall, answer: Result<ProbeResult, string>, now: nat)
      modifies this
      ensures View() == ProbeAnswered(old(View()), call, answer, now)
      ensures Follows(old(View()), View()) && ProbeFollowsSelection(old(View()), View())
      ensures state.probeResult != old(state.probeResult) ==>
                call.generation == probeGeneration && state.selectedUid == Some(call.uid)
      ensures SameCounters(old(View()), View())
      ensures refreshGeneration == old(refreshGeneration) && loadPromise == old(loadPromise)
      ensures state == if call.generation != probeGeneration || old(state.selectedUid) != Some(call.uid) then old(state)
                       else match answer
                         case Ok(result) =>
                           old(state).(probePhase := Complete, probeResult := Some(result), probeError := None,
                                       probeCompletedAt := Some(now), availability := state.availability)
                         case Err(reason) =>
                           old(state).(probePhase := ProbeFailed, probeResult := None, probeError := Some(reason),
                                       probeCompletedAt := None, availability := state.availability)
    {
      if call.generation != probeGeneration || state.selectedUid != Some(call.uid) {
        return;
      }
      match answer {
        case Ok(result) =>
          Update(state.(probePhase := Complete, probeResult := Some(result),
                        probeError := None, probeCompletedAt := Some(now)));
        case Err(reason) =>
          Update(state.(probePhase := ProbeFailed, probeResult := None,
                        probeError := Some(reason), probeCompletedAt := None));
      }
    }

    /** synchronizeConfig(), and the end of resolveStartInput() once its configuration is loaded. */
    method TakeConfig(config: Config) returns (input: StartInput)
      modifies this
      ensures View() == ConfigTaken(old(View()), config)
      ensures input == StartInputOf(old(View()), config)
      ensures Follows(old(View()), View()) && ProbeFollowsSelection(old(View()), View()) && AvailabilityCurrent(View())
      ensures state.selectedUid == old(state.selectedUid) ==> SameProbe(old(View()), View())
      ensures refreshGeneration == old(refreshGeneration) && loadPromise == old(loadPromise)
      ensures selectionGeneration == old(selectionGeneration) && selectionQueue == old(selectionQueue)
      ensures input == StartInput(NormalizeCaptureMode(config.captureMode), config.microphoneUid, state.availability)
      ensures var taken := old(state).(
                selectedUid := config.microphoneUid, selectedName := config.microphoneName,
                captureMode := NormalizeCaptureMode(config.captureMode), availability := state.availability);
              if old(state.selectedUid) == config.microphoneUid then
                state == taken && probeGeneration == old(probeGeneration)
              else
                && ProbeDropped(old(View()), View())
                && state == taken.(probePhase := NotProbed, probeResult := None, probeError := None,
                                   probeCompletedAt := None)
    {
      var selectionChanged := state.selectedUid != config.microphoneUid;
      var synchronized := state.(selectedUid := config.microphoneUid, selectedName := config.microphoneName,
                                 captureMode := NormalizeCaptureMode(config.captureMode));
      if selectionChanged {
        probeGeneration := probeGeneration + 1;
        synchronized := WithoutProbe(synchronized);
      }
      Update(synchronized);
      return StartInput(synchronized.captureMode, synchronized.selectedUid, AvailabilityFor(synchronized));
    }

    method SetLocked(locked: bool)
      modifies this
      ensures View() == LockSet(old(View()), locked)
      ensures Follows(old(View()), View()) && ProbeFollowsSelection(old(View()), View())
      ensures SameCounters(old(View()), View())
      ensures refreshGeneration == old(refreshGeneration) && loadPromise == old(loadPromise)
      ensures state == old(state).(locked := locked, availability := state.availability)
    {
      Update(state.(locked := locked));
    }
  }
}
