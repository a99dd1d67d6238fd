/**
 One installation over its whole life: operations on its device, exports of the device state to
 encrypted files, and restarts that import one of those files. Whatever was done since the file
 was written is then lost.
 */
module Restarts {
  import opened Common
  import opened Bytes
  import opened MlsGroup
  import opened StateFormat
  import opened StateExport
  import opened Staging

  /** What OpenMLS keeps in its key-value storage. */
  datatype Ratchets = Ratchets(groups: map<Bytes, Group>, consumed: set<Cipher>, sealed: nat)

  /**
   What stays the same over restarts: the identity and its signature key, the wrapping key and context
   of the files, and how OpenMLS lays out its storage.
   */
  datatype Vault = Vault(
    identity: Bytes, publicKey: Bytes, key: nat, context: Bytes,
    save: Ratchets -> map<Bytes, Bytes>, load: map<Bytes, Bytes> -> Ratchets,
    hasSigner: (map<Bytes, Bytes>, Bytes) -> bool)

  /** The storage holds the whole ratchet state and the signer; the identity was accepted by `MlsDevice::new`. */
  ghost predicate Faithful(v: Vault) {
    && Bounded(v.identity, MAX_IDENTITY_BYTES) && |v.publicKey| == 32
    && forall r :: v.load(v.save(r)) == r && v.hasSigner(v.save(r), v.publicKey)
  }

  function StateOf(v: Vault, d: Device): DeviceState {
    DeviceState(v.identity, v.publicKey, v.save(Ratchets(d.groups, d.consumed, d.sealed)), d.pending, d.outgoing)
  }

  function DeviceOf(v: Vault, s: DeviceState): Device {
    var r := v.load(s.values);
    Device(r.groups, r.consumed, r.sealed, s.pending, s.outgoing)
  }

  ghost function Saved(v: Vault, d: Device): Result<File> {
    Exported(v.key, v.context, StateOf(v, d))
  }

  function Restored(v: Vault, file: File): Result<Device> {
    match Imported(v.key, v.context, file, v.hasSigner)
    case Err(error) => Err(error)
    case Ok(s) => Ok(DeviceOf(v, s))
  }

  /** A device and the files its exports left behind. */
  datatype World = World(device: Device, files: seq<File>)

  datatype Action = Act(op: Op) | Export | Import(i: nat)

  /** An export or import that fails changes nothing. */
  ghost function Next(c: Crypto, v: Vault, w: World, a: Action): World {
    match a
    case Act(op) => w.(device := Step(c, w.device, op))
    case Export => if Saved(v, w.device).Ok? then w.(files := w.files + [Saved(v, w.device).value]) else w
    case Import(i) =>
      if i < |w.files| && Restored(v, w.files[i]).Ok? then w.(device := Restored(v, w.files[i]).value) else w
  }

  ghost function Life(c: Crypto, v: Vault, w: World, actions: seq<Action>): World
    decreases |actions|
  {
    if actions == [] then w else Next(c, v, Life(c, v, w, actions[..|actions| - 1]), actions[|actions| - 1])
  }

  function Birth(): World {
    World(NewDevice(), [])
  }
}
