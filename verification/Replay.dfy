/** The replay class of a run and its reasons (src/skill_native/run_artifact_derived.py,
    `_build_replay`; src/skill_native/run_artifact_contract.py, `validate_replay`). */
module Replay {
  import opened Wrappers
  import opened Strings
  import opened Json
  import opened Snapshot

  datatype ReplayClass = ExactReplay | PartialReplay | NoReplay

  datatype Manifest = Manifest(
    runId: string,
    planDigest: string,
    provenance: string,
    backend: string,
    snapshotCapable: bool,
    snapshotDigest: Option<string>,
    imageDigest: string,
    version: string,
    replayClass: ReplayClass,
    reasons: seq<string>)

  const NO_SNAPSHOT_SUPPORT := "runtime-does-not-support-snapshot-restore"
  const NO_SNAPSHOT_DIGEST := "snapshot-digest-not-captured"
  const IMAGE_NOT_PINNED := "runtime-image-is-not-a-sha256-pin"
  const VERSION_MUTABLE := "runtime-version-is-mutable"

  /** The fields that the builder reads must be there, in the form that the manifest wants. */
  predicate Replayable(plan: Object, evidence: Object) {
    var runtime := Sub(Sub(plan, "run_spec"), "runtime");
    && Get(plan, "run_spec").JObject? && Get(Sub(plan, "run_spec"), "runtime").JObject?
    && GetOr(plan, "runtime_capabilities", JObject([])).JObject?
    && GetOr(evidence, "runtime_metadata", JObject([])).JObject?
    && HasText(runtime, "image_digest") && HasText(runtime, "version")
    && HasText(plan, "run_id") && HasText(plan, "runtime_backend")
    && IsHex64(Text(plan, "plan_digest")) && IsHex64(Text(plan, "provenance_digest"))
    && IsHex64(Text(plan, "policy_digest"))
    && (Get(plan, "stdin_digest") == JNull || IsHex64(Text(plan, "stdin_digest")))
  }

  /** The validator of the manifest, apart from its own digest. */
  predicate ValidManifest(m: Manifest) {
    && StrictlySorted(m.reasons)
    && (m.replayClass == ExactReplay ==>
          m.snapshotCapable && m.snapshotDigest.Some? && IsSha256Reference(m.imageDigest))
  }

  /** What the manifest says about its inputs. Replay is exact just when the runtime can restore
      snapshots, some nested mapping of the metadata holds a snapshot digest, and the image is
      pinned: the runtime version has no say. Otherwise a mutable version rules replay out
      altogether. An exact replay has no reasons against it, any other has one for each condition
      that fails. */
  ghost predicate IsManifestOf(plan: Object, evidence: Object, m: Manifest) {
    var runtime := Sub(Sub(plan, "run_spec"), "runtime");
    var found := Digests(JObject(Sub(evidence, "runtime_metadata"))) != {};
    var capable := Get(Sub(plan, "runtime_capabilities"), "snapshot_restore") == JBool(true);
    var pinned := IsSha256Reference(Text(runtime, "image_digest"));
    var mutable := IsMutableRef(Normal(Text(runtime, "version")));
    && m.planDigest == Text(plan, "plan_digest")
    && m.runId == Text(plan, "run_id") && m.provenance == Text(plan, "provenance_digest")
    && m.backend == Text(plan, "runtime_backend") && m.version == Text(runtime, "version")
    && m.imageDigest == Text(runtime, "image_digest")
    && (m.replayClass == ExactReplay <==> capable && found && pinned)
    && (m.replayClass == NoReplay <==> !(capable && found && pinned) && mutable)
    && (forall reason :: reason in m.reasons <==>
          || (reason == NO_SNAPSHOT_SUPPORT && !capable)
          || (reason == NO_SNAPSHOT_DIGEST && !found)
          || (reason == IMAGE_NOT_PINNED && !pinned)
          || (reason == VERSION_MUTABLE && m.replayClass == NoReplay))
    && m.snapshotCapable == capable && (m.snapshotDigest.Some? <==> found)
    && m.snapshotDigest == FirstIn(JObject(Sub(evidence, "runtime_metadata")))
  }

  /** The class and its reasons, from the four conditions. */
  method Classify(capable: bool, found: bool, pinned: bool, mutable: bool)
    returns (replayClass: ReplayClass, sorted: seq<string>)
    ensures replayClass == ExactReplay <==> capable && found && pinned
    ensures replayClass == NoReplay <==> !(capable && found && pinned) && mutable
    ensures StrictlySorted(sorted)
    ensures forall reason :: reason in sorted <==>
              || (reason == NO_SNAPSHOT_SUPPORT && !capable)
              || (reason == NO_SNAPSHOT_DIGEST && !found)
              || (reason == IMAGE_NOT_PINNED && !pinned)
              || (reason == VERSION_MUTABLE && replayClass == NoReplay)
  {
    hide *;
    var reasons: seq<string> := [];
    replayClass := ExactReplay;
    if !(capable && found && pinned) {
      replayClass := PartialReplay;
      if !capable {
        reasons := reasons + [NO_SNAPSHOT_SUPPORT];
      }
      if !found {
        reasons := reasons + [NO_SNAPSHOT_DIGEST];
      }
      if !pinned {
        reasons := reasons + [IMAGE_NOT_PINNED];
      }
      if mutable {
        replayClass := NoReplay;
        reasons := reasons + [VERSION_MUTABLE];
      }
    }
    sorted := SortedSet(reasons);
  }

  /** The manifest is built whenever the fields are there, and always passes its validator. */
  method BuildReplay(plan: Object, evidence: Object) returns (r: Option<Manifest>)
    ensures r.Some? <==> Replayable(plan, evidence)
    ensures r.Some? ==> ValidManifest(r.value) && IsManifestOf(plan, evidence, r.value)
  {
    hide Replayable, IsSha256Reference, IsMutableRef, Normal, Digests, FirstIn, GetOr, StrictlySorted;
    if !Replayable(plan, evidence) {
      return None;
    }
    var runtime := Sub(Sub(plan, "run_spec"), "runtime");
    var capable := Get(Sub(plan, "runtime_capabilities"), "snapshot_restore") == JBool(true);
    var snapshot := FindSnapshotDigest(JObject(Sub(evidence, "runtime_metadata")));
    var image, version := Text(runtime, "image_digest"), Text(runtime, "version");
    var pinned, mutable := IsSha256Reference(image), IsMutableRef(Normal(version));
    var replayClass, reasons := Classify(capable, snapshot.Some?, pinned, mutable);
    return Some(Manifest(Text(plan, "run_id"), Text(plan, "plan_digest"), Text(plan, "provenance_digest"),
                         Text(plan, "runtime_backend"), capable, snapshot, image, version, replayClass, reasons));
  }
}
