/** The stage contract of the preset, decided for the stages that are modelled:
  * standard controls, vendor controls, gain and mute. */
module PresetContract {
  import opened Wrappers
  import Audio
  import Codec
  import ControlModel
  import ControlSafety
  import ControlPlan
  import Preset
  import PresetSafety
  import Vendor
  import VendorGroup
  import VendorUndo

  /** What the preset sees of a control run: its kind of error, and whether the
    * controls moved. */
  function StageAnswer(before: ControlModel.Device, after: ControlModel.Device,
          outcome: ControlModel.Outcome): Preset.Application {
    if outcome.Applied? then Preset.Takes
    else Preset.Breaks(outcome.Undone? && outcome.partial, if after.values == before.values then None else Some(1))
  }

  /** A script in which one stage answers so and everything else goes well. */
  function OneStage(kind: Preset.Kind, answer: Preset.Application): Preset.Script {
    Preset.Script(map[], map[kind := answer], map[], Preset.Removed)
  }

  lemma {:induction false} OneStageContract(kind: Preset.Kind, answer: Preset.Application)
    requires !kind.CameraRestart?
    ensures PresetSafety.Contract(OneStage(kind, answer)) <==> answer.Takes? || answer.partial || answer.moved.None?
  {
    assert kind in OneStage(kind, answer).forward;
  }

  lemma {:induction false} OneStageMisreports(device: Preset.State, kind: Preset.Kind, answer: Preset.Application)
    requires Preset.Complete(device) && kind in Preset.ApplyOrder && !kind.CameraRestart? && answer.Breaks?
    ensures PresetSafety.Misreports(device, kind, OneStage(kind, answer)) <==>
            !answer.partial && answer.moved.Some? && answer.moved.value != device[kind]
  {
    assert kind in OneStage(kind, answer).forward;
    PresetSafety.BrokenContractMisreports(device, kind, OneStage(kind, answer));
  }

  // ------------------------------------------------------- standard controls

  /** The control stage keeps the contract exactly when it does not fail on
    * reopening its node over changed controls. */
  lemma {:induction false} ControlStageContract(d: ControlModel.Device, requests: seq<ControlPlan.Request>, raw: bool,
          fallback: bool, batched: bool)
    requires d.Valid() && ControlModel.NoSkew(d.undo)
    ensures var (after, outcome) := ControlPlan.ExecuteRequests(d, requests, raw, fallback, batched, false);
            PresetSafety.Contract(OneStage(Preset.StandardControls, StageAnswer(d, after, outcome))) <==>
                !(outcome.ReopenFailed? && after.values != d.values)
  {
    var (after, outcome) := ControlPlan.ExecuteRequests(d, requests, raw, fallback, batched, false);
    ControlPlan.RequestsAllOrNothing(d, requests, raw, fallback, batched, false);
    NonPartialUndo(d, requests, raw, fallback, batched);
    OneStageContract(Preset.StandardControls, StageAnswer(d, after, outcome));
  }

  predicate Kept(before: ControlModel.Device, after: ControlModel.Device, outcome: ControlModel.Outcome) {
    outcome.Undone? && !outcome.partial ==> after.values == before.values
  }

  lemma {:induction false} PreparedKept(d: ControlModel.Device, prepared: seq<ControlModel.PreparedWrite>,
          fallback: bool, batched: bool)
    requires d.Valid() && (prepared != [] ==> ControlModel.Requested(prepared) != []) && ControlModel.NoSkew(d.undo)
    ensures var (after, outcome) := ControlModel.ExecutePrepared(d, prepared, fallback, batched, false);
            Kept(d, after, outcome)
  {
    ControlSafety.StageContract(d, prepared, fallback, batched, false);
  }

  lemma {:induction false} NonPartialUndo(d: ControlModel.Device, requests: seq<ControlPlan.Request>, raw: bool,
          fallback: bool, batched: bool)
    requires d.Valid() && ControlModel.NoSkew(d.undo)
    ensures var (after, outcome) := ControlPlan.ExecuteRequests(d, requests, raw, fallback, batched, false);
            Kept(d, after, outcome)
  {
    var (d1, isOpen) := ControlModel.OpenNode(d);
    if isOpen {
      ControlPlan.PlanFrame(d1, requests, raw, [], []);
      var (d2, planned) := ControlPlan.PlanFrom(d1, requests, raw, [], []);
      if planned.Some? {
        PreparedKept(d2, planned.value, fallback, batched);
        assert ControlPlan.ExecuteRequests(d, requests, raw, fallback, batched, false)
            == ControlModel.ExecutePrepared(d2, planned.value, fallback, batched, false);
      }
    }
  }

  // ---------------------------------------------------------- vendor controls

  /** The vendor group never reports a partial state; `token` stands for the
    * selectors it leaves when they are not those it found. */
  function GroupAnswer(before: Vendor.Selectors, after: Vendor.Selectors, outcome: VendorGroup.GroupOutcome,
          token: int): Preset.Application {
    if outcome.Completed? then Preset.Takes else Preset.Breaks(false, if after == before then None else Some(token))
  }

  /** The vendor stage keeps the contract exactly when it completes, or what landed
    * before it stopped is what was there, or its undo recovers every bit. */
  lemma {:induction false} VendorStageContract(camera: Vendor.Camera, group: seq<Vendor.Prepared>, video: bool,
          token: int)
    requires Vendor.Checked(group) && Vendor.Clean(camera.undo)
    requires VendorUndo.CleanStarts(VendorUndo.Forward(camera, group).attempts)
    ensures var sent := VendorUndo.Forward(camera, group);
            var (after, outcome) := VendorGroup.ApplyGroup(camera, group, [], video);
            && sent.camera.selectors.Keys == camera.selectors.Keys
            && (PresetSafety.Contract(OneStage(Preset.VendorControls,
                GroupAnswer(camera.selectors, after.selectors, outcome, token))) <==>
                match sent.end
                case AllSent => video || VendorUndo.Landed(camera.selectors, sent.attempts) == camera.selectors
                case Unprepared => VendorUndo.Landed(camera.selectors, sent.attempts) == camera.selectors
                case Misread => VendorUndo.AllRecovered(sent.camera, sent.attempts, camera.selectors))
  {
    var (after, outcome) := VendorGroup.ApplyGroup(camera, group, [], video);
    VendorUndo.GroupAllOrNothing(camera, group, video);
    VendorUndo.ForwardIsTraced(camera, group);
    OneStageContract(Preset.VendorControls, GroupAnswer(camera.selectors, after.selectors, outcome, token));
  }

  /** On a camera that obeys: exactly when every live baseline could be read and
    * the video format put back, or the latest payloads ask for nothing new. */
  lemma {:induction false} ObedientVendorStage(camera: Vendor.Camera, group: seq<Vendor.Prepared>, video: bool,
          token: int)
    requires Vendor.Chained(camera.selectors, group) && Vendor.Checked(group) && VendorGroup.Obedient(camera.forward)
    requires forall p :: p in group ==> VendorGroup.Previewable(p)
    ensures var stop := VendorGroup.StopAt(group, camera.baselines);
            var (after, outcome) := VendorGroup.ApplyGroup(camera, group, [], video);
            PresetSafety.Contract(OneStage(Preset.VendorControls,
                GroupAnswer(camera.selectors, after.selectors, outcome, token))) <==>
            || (stop == |group| && video)
            || forall key :: key in camera.selectors ==>
                 Vendor.Latest(camera.selectors, group[..stop], key) == camera.selectors[key]
  {
    var (after, outcome) := VendorGroup.ApplyGroup(camera, group, [], video);
    VendorGroup.AbandonedExact(camera, group, video);
    OneStageContract(Preset.VendorControls, GroupAnswer(camera.selectors, after.selectors, outcome, token));
  }

  /** A preset run whose vendor stage is this run of the vendor group says
    * `RolledBack` over a changed device. */
  predicate VendorMisreports(device: Preset.State, camera: Vendor.Camera, group: seq<Vendor.Prepared>, video: bool)
    requires Vendor.Checked(group) && Preset.Complete(device)
  {
    var (after, outcome) := VendorGroup.ApplyGroup(camera, group, [], video);
    var answer := GroupAnswer(camera.selectors, after.selectors, outcome, device[Preset.VendorControls] + 1);
    PresetSafety.Misreports(device, Preset.VendorControls, OneStage(Preset.VendorControls, answer))
  }

  /** It does so exactly when the group fails with other bytes than it found. */
  lemma {:induction false} VendorMisreportsExact(device: Preset.State, camera: Vendor.Camera,
          group: seq<Vendor.Prepared>, video: bool)
    requires Preset.Complete(device) && Vendor.Checked(group)
    requires !VendorGroup.ApplyGroup(camera, group, [], video).1.Completed?
    ensures VendorMisreports(device, camera, group, video) <==>
            VendorGroup.ApplyGroup(camera, group, [], video).0.selectors != camera.selectors
  {
    var (after, outcome) := VendorGroup.ApplyGroup(camera, group, [], video);
    assert Preset.ApplyOrder[1] == Preset.VendorControls;
    OneStageMisreports(device, Preset.VendorControls,
                       GroupAnswer(camera.selectors, after.selectors, outcome, device[Preset.VendorControls] + 1));
  }

  /** Three runs of the vendor group over which the preset reports `RolledBack`
    * with a write left in place: a live baseline that cannot be read, a video
    * format that cannot be put back, and an in-session undo that fails. */
  lemma {:induction false} VendorStageMisreports(device: Preset.State, a: Codec.Byte, n: Codec.Byte)
    requires Preset.Complete(device) && a != n
    ensures var one, two := VendorGroup.HeadWrite(1, a, n), VendorGroup.HeadWrite(2, a, n);
            var start := VendorGroup.TwoSelectors(a);
            && VendorMisreports(device, Vendor.Camera(start, [true, false], [], []), [one, two], true)
            && VendorMisreports(device, Vendor.Camera(start, [], [], []), [one], false)
            && VendorMisreports(device,
                Vendor.Camera(start, [true, false], [Vendor.Answer(Vendor.Payload, false, true)], []), [one], true)
  {
    var one, two := VendorGroup.HeadWrite(1, a, n), VendorGroup.HeadWrite(2, a, n);
    var start := VendorGroup.TwoSelectors(a);
    VendorGroup.EarlyReturnLeavesWrite(a, n);
    VendorMisreportsExact(device, Vendor.Camera(start, [true, false], [], []), [one, two], true);
    VendorGroup.LostVideoLeavesWrites(a, n);
    VendorMisreportsExact(device, Vendor.Camera(start, [], [], []), [one], false);
    VendorGroup.FailedUndoLeavesWrite(a, n);
    VendorMisreportsExact(device, Vendor.Camera(start, [true, false], [Vendor.Answer(Vendor.Payload, false, true)], []),
        [one], true);
  }

  // ------------------------------------------------------------ gain and mute

  /** Only a failed verification is reported as a partial state. */
  function MixerAnswer(before: Audio.Mixer, after: Audio.Mixer, outcome: Audio.Outcome,
      token: int): Preset.Application {
    if outcome.Applied? then Preset.Takes
    else Preset.Breaks(outcome.Mismatched?, if after.Holds(before) then None else Some(token))
  }

  function AudioKind(change: Audio.Change): Preset.Kind {
    if change.Gain? then Preset.AudioGain else Preset.AudioMute
  }

  /** The gain and mute stages keep the contract exactly when they do not fail on
    * the reading after a write that left something else than it found. */
  lemma {:induction false} MixerStageContract(m: Audio.Mixer, change: Audio.Change, token: int)
    ensures var (after, outcome) := Audio.SetHardware(m, change);
            PresetSafety.Contract(OneStage(AudioKind(change), MixerAnswer(m, after, outcome, token))) <==>
            !(outcome.Unread? && Audio.Left(m, change) != Audio.Held(m, change))
  {
    var (after, outcome) := Audio.SetHardware(m, change);
    Audio.MixerContract(m, change);
    OneStageContract(AudioKind(change), MixerAnswer(m, after, outcome, token));
  }

  lemma {:induction false} AudioKindApplies(change: Audio.Change)
    ensures AudioKind(change) in Preset.ApplyOrder
  {
    assert Preset.ApplyOrder[3] == Preset.AudioGain && Preset.ApplyOrder[4] == Preset.AudioMute;
  }

  /** A preset run whose gain or mute stage is this run of the mixer says
    * `RolledBack` over a changed device exactly in that case. */
  lemma {:induction false} MixerMisreportsExact(device: Preset.State, m: Audio.Mixer, change: Audio.Change)
    requires Preset.Complete(device) && !Audio.SetHardware(m, change).1.Applied?
    ensures var kind := AudioKind(change);
            var (after, outcome) := Audio.SetHardware(m, change);
            PresetSafety.Misreports(device, kind, OneStage(kind, MixerAnswer(m, after, outcome, device[kind] + 1))) <==>
            outcome.Unread? && Audio.Left(m, change) != Audio.Held(m, change)
  {
    var (after, outcome) := Audio.SetHardware(m, change);
    Audio.MixerContract(m, change);
    AudioKindApplies(change);
    OneStageMisreports(device, AudioKind(change), MixerAnswer(m, after, outcome, device[AudioKind(change)] + 1));
  }
}
