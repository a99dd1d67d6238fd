/** Crash safety: receipts, outgoing messages and used-up secrets over every life of an installation. */
module RestartTheorems {
  import opened Common
  import opened Bytes
  import opened MlsGroup
  import opened StateFormat
  import opened StateTheorems
  import opened StateExact
  import opened StateExport
  import opened Staging
  import opened StagingTheorems
  import opened Restarts

  // ---------------------------------------------------------------- what an import gives back

  lemma SoundIsKeyed(d: Device)
    requires Sound(d)
    ensures Keyed(d.outgoing)
  {}

  /** Importing what was exported gives exactly the device that was exported, or fails. */
  lemma RestoreUndoesSave(v: Vault, d: Device)
    requires Faithful(v) && Keyed(d.outgoing) && Saved(v, d).Ok?
    ensures var r := Restored(v, Saved(v, d).value);
            && (r.Ok? <==> WellFormed(StateOf(v, d)) && |Encode(3, StateOf(v, d))| <= MAX_STATE_BYTES)
            && (r.Ok? ==> r.value == d)
  {
    ImportUndoesExport(v.key, v.context, StateOf(v, d), v.hasSigner);
    assert v.load(v.save(Ratchets(d.groups, d.consumed, d.sealed))) == Ratchets(d.groups, d.consumed, d.sealed);
  }

  /** Whatever an import accepts is within all limits. */
  lemma RestoredIsSound(v: Vault, file: File)
    requires Restored(v, file).Ok?
    ensures Sound(Restored(v, file).value)
  {
    ImportIsAuthentic(v.key, v.context, file, v.hasSigner);
  }

  /** No life outgrows a limit: the counts an export checks never make it fail. */
  lemma {:induction false} AlwaysSound(c: Crypto, v: Vault, actions: seq<Action>)
    ensures Sound(Life(c, v, Birth(), actions).device)
  {
    if actions != [] {
      var before := Life(c, v, Birth(), actions[..|actions| - 1]);
      AlwaysSound(c, v, actions[..|actions| - 1]);
      match actions[|actions| - 1] {
        case Act(op) => StepKeepsSound(c, before.device, op);
        case Export =>
        case Import(i) =>
          if i < |before.files| && Restored(v, before.files[i]).Ok? {
            RestoredIsSound(v, before.files[i]);
          }
      }
    }
  }

  /** The two fields of a receipt that no operation checks and an import does. */
  predicate SenderOk(a: Application) {
    Bounded(a.credential, MAX_IDENTITY_BYTES) && |a.signatureKey| == 32
  }

  ghost predicate SendersOk(m: map<Bytes, Application>) {
    forall k :: k in m ==> SenderOk(m[k])
  }

  ghost predicate WiresOk(m: map<Bytes, Outgoing>) {
    forall k :: k in m ==> Bounded(m[k].wire, MAX_WIRE_BYTES)
  }

  ghost predicate NoEmptyKey(m: map<Bytes, Bytes>) {
    forall k :: k in m ==> k != []
  }

  lemma PendingsOkExactly(m: map<Bytes, Application>)
    requires PendingsSound(m)
    ensures PendingsOk(m) <==> SendersOk(m)
  {
    assert forall k :: k in m ==> (PendingOk(k, m[k]) <==> SenderOk(m[k]));
  }

  lemma OutgoingsOkExactly(m: map<Bytes, Outgoing>)
    requires OutgoingsSound(m)
    ensures OutgoingsOk(m) <==> WiresOk(m)
  {
    assert forall k :: k in m ==> (OutgoingOk(k, m[k]) <==> Bounded(m[k].wire, MAX_WIRE_BYTES));
  }

  lemma {:induction false} ChunkWithin(chunks: seq<Bytes>, i: nat)
    requires i < |chunks|
    ensures |chunks[i]| <= |Concat(chunks)|
  {
    if i > 0 {
      ChunkWithin(chunks[1..], i - 1);
    }
  }

  lemma ValueWithin(m: map<Bytes, Bytes>, k: Bytes)
    requires ValuesFit(m) && k in m
    ensures |k| + |m[k]| <= |ValueSection(m)|
  {
    var keys := SortedList(m.Keys);
    assert k in keys;
    var i :| 0 <= i < |keys| && keys[i] == k;
    ChunkWithin(ValueChunks(m), i);
  }

  lemma ValuesOkExactly(s: DeviceState)
    requires Exportable(s)
    ensures ValuesOk(s.values) <==> NoEmptyKey(s.values)
  {
    forall k | k in s.values ensures ValueOk(k, s.values[k]) <==> k != [] {
      ValueWithin(s.values, k);
      assert |ValueSection(s.values)| <= |UpToValues(s)|;
    }
  }

  /** What the export of a device has to satisfy for its import to succeed. */
  ghost predicate Restorable(v: Vault, d: Device)
    requires Saved(v, d).Ok?
  {
    && SendersOk(d.pending) && WiresOk(d.outgoing) && NoEmptyKey(StateOf(v, d).values)
    && |Encode(3, StateOf(v, d))| <= MAX_STATE_BYTES
  }

  lemma WellFormedExactly(v: Vault, d: Device)
    requires Faithful(v) && Sound(d) && Saved(v, d).Ok?
    ensures WellFormed(StateOf(v, d)) <==> SendersOk(d.pending) && WiresOk(d.outgoing) && NoEmptyKey(StateOf(v, d).values)
  {
    PendingsOkExactly(d.pending);
    OutgoingsOkExactly(d.outgoing);
    ValuesOkExactly(StateOf(v, d));
  }

  /**
   In every life an exported file brings the exported device back exactly when the senders of its receipts
   have credentials of 1 to 1024 bytes and keys of 32, its sealed messages have 1 to 2^20 bytes, no
   storage key is empty, and the plaintext is within the limit; otherwise it brings nothing back.
   */
  lemma RestoredExactly(c: Crypto, v: Vault, actions: seq<Action>)
    requires Faithful(v) && Saved(v, Life(c, v, Birth(), actions).device).Ok?
    ensures var d := Life(c, v, Birth(), actions).device;
            && (Restored(v, Saved(v, d).value) == Ok(d) <==> Restorable(v, d))
            && (!Restorable(v, d) ==> Restored(v, Saved(v, d).value).Err?)
  {
    var d := Life(c, v, Birth(), actions).device;
    AlwaysSound(c, v, actions);
    SoundIsKeyed(d);
    RestoreUndoesSave(v, d);
    WellFormedExactly(v, d);
  }

  /** One receipt of a sender without a proper credential or key makes every import of its device fail. */
  lemma BadSenderBlocksImport(v: Vault, d: Device, k: Bytes)
    requires Keyed(d.outgoing) && Saved(v, d).Ok? && k in d.pending && !SenderOk(d.pending[k])
    ensures Restored(v, Saved(v, d).value).Err?
  {
    ImportUndoesExport(v.key, v.context, StateOf(v, d), v.hasSigner);
    assert !PendingOk(k, d.pending[k]);
  }

  // ---------------------------------------------------------------- the operations a device is made of

  /** Which actions, by their positions, made the present device, and which the device of each file. */
  datatype Lineage = Lineage(current: seq<nat>, saved: seq<seq<nat>>)

  /** The n-th action: an operation is appended, an export keeps the list with its file, a restart goes back to that list. */
  ghost function Extended(v: Vault, w: World, t: Lineage, n: nat, a: Action): Lineage {
    match a
    case Act(_) => t.(current := t.current + [n])
    case Export => if Saved(v, w.device).Ok? then t.(saved := t.saved + [t.current]) else t
    case Import(i) =>
      if i < |w.files| && i < |t.saved| && Restored(v, w.files[i]).Ok? then t.(current := t.saved[i]) else t
  }

  ghost function Traced(c: Crypto, v: Vault, actions: seq<Action>): Lineage
    decreases |actions|
  {
    if actions == [] then Lineage([], [])
    else
      var last := |actions| - 1;
      Extended(v, Life(c, v, Birth(), actions[..last]), Traced(c, v, actions[..last]), last, actions[last])
  }

  /** Positions of operations among the actions, in increasing order. */
  ghost predicate Picks(actions: seq<Action>, indices: seq<nat>) {
    Ascending(indices) && forall j :: 0 <= j < |indices| ==> indices[j] < |actions| && actions[indices[j]].Act?
  }

  ghost function OpsAt(actions: seq<Action>, indices: seq<nat>): (ops: seq<Op>)
    requires Picks(actions, indices)
    ensures |ops| == |indices|
  {
    seq(|indices|, j requires 0 <= j < |indices| => actions[indices[j]].op)
  }

  /** The device that the operations at these positions make, one after the other, without restarts. */
  ghost function Made(c: Crypto, actions: seq<Action>, indices: seq<nat>): Device
    requires Picks(actions, indices)
  {
    Run(c, NewDevice(), OpsAt(actions, indices))
  }

  /** The device and every file are what their lists of operations make. */
  ghost predicate FileMade(c: Crypto, v: Vault, actions: seq<Action>, indices: seq<nat>, file: File) {
    Picks(actions, indices) && Saved(v, Made(c, actions, indices)) == Ok(file)
  }

  ghost predicate DeviceMade(c: Crypto, actions: seq<Action>, indices: seq<nat>, d: Device) {
    Picks(actions, indices) && d == Made(c, actions, indices)
  }

  ghost predicate FilesMade(c: Crypto, v: Vault, actions: seq<Action>, saved: seq<seq<nat>>, files: seq<File>) {
    |saved| == |files| && forall i :: 0 <= i < |files| ==> FileMade(c, v, actions, saved[i], files[i])
  }

  lemma PicksLonger(actions: seq<Action>, a: Action, indices: seq<nat>)
    requires Picks(actions, indices)
    ensures Picks(actions + [a], indices) && OpsAt(actions + [a], indices) == OpsAt(actions, indices)
  {}

  lemma FilesMadeLonger(c: Crypto, v: Vault, actions: seq<Action>, a: Action, saved: seq<seq<nat>>, files: seq<File>)
    requires FilesMade(c, v, actions, saved, files)
    ensures FilesMade(c, v, actions + [a], saved, files)
  {
    forall i | 0 <= i < |files| ensures FileMade(c, v, actions + [a], saved[i], files[i]) {
      PicksLonger(actions, a, saved[i]);
    }
  }

  lemma PicksLast(c: Crypto, actions: seq<Action>, op: Op, indices: seq<nat>)
    requires Picks(actions, indices)
    ensures Picks(actions + [Act(op)], indices + [|actions|])
    ensures Made(c, actions + [Act(op)], indices + [|actions|]) == Step(c, Made(c, actions, indices), op)
  {
    var ops := OpsAt(actions + [Act(op)], indices + [|actions|]);
    assert ops[..|ops| - 1] == OpsAt(actions, indices);
  }

  lemma MadeIsKeyed(c: Crypto, actions: seq<Action>, indices: seq<nat>)
    requires Picks(actions, indices)
    ensures Keyed(Made(c, actions, indices).outgoing)
  {
    RunKeepsSound(c, NewDevice(), OpsAt(actions, indices));
    SoundIsKeyed(Made(c, actions, indices));
  }

  lemma ImportMakes(c: Crypto, v: Vault, actions: seq<Action>, indices: seq<nat>, file: File)
    requires Faithful(v) && FileMade(c, v, actions, indices, file) && Restored(v, file).Ok?
    ensures DeviceMade(c, actions, indices, Restored(v, file).value)
  {
    MadeIsKeyed(c, actions, indices);
    RestoreUndoesSave(v, Made(c, actions, indices));
  }

  ghost predicate Follows(c: Crypto, v: Vault, actions: seq<Action>, w: World, t: Lineage) {
    DeviceMade(c, actions, t.current, w.device) && FilesMade(c, v, actions, t.saved, w.files)
  }

  lemma FollowsLonger(c: Crypto, v: Vault, actions: seq<Action>, a: Action, w: World, t: Lineage)
    requires Follows(c, v, actions, w, t)
    ensures Follows(c, v, actions + [a], w, t)
  {
    FilesMadeLonger(c, v, actions, a, t.saved, w.files);
    PicksLonger(actions, a, t.current);
  }

  lemma FollowsImport(c: Crypto, v: Vault, actions: seq<Action>, w: World, t: Lineage, i: nat)
    requires Faithful(v) && Follows(c, v, actions, w, t)
    requires i < |w.files| && Restored(v, w.files[i]).Ok?
    ensures DeviceMade(c, actions, t.saved[i], Restored(v, w.files[i]).value)
  {
    assert FileMade(c, v, actions, t.saved[i], w.files[i]);
    ImportMakes(c, v, actions, t.saved[i], w.files[i]);
  }

  lemma FollowsExport(c: Crypto, v: Vault, actions: seq<Action>, w: World, t: Lineage)
    requires Follows(c, v, actions, w, t) && Saved(v, w.device).Ok?
    ensures FilesMade(c, v, actions, t.saved + [t.current], w.files + [Saved(v, w.device).value])
  {}

  lemma FollowsAct(c: Crypto, v: Vault, actions: seq<Action>, op: Op, w: World, t: Lineage)
    requires Follows(c, v, actions, w, t)
    ensures Follows(c, v, actions + [Act(op)], Next(c, v, w, Act(op)), Extended(v, w, t, |actions|, Act(op)))
  {
    FollowsLonger(c, v, actions, Act(op), w, t);
    PicksLast(c, actions, op, t.current);
  }

  lemma FollowsNext(c: Crypto, v: Vault, actions: seq<Action>, a: Action, w: World, t: Lineage)
    requires Faithful(v) && Follows(c, v, actions, w, t)
    ensures Follows(c, v, actions + [a], Next(c, v, w, a), Extended(v, w, t, |actions|, a))
  {
    match a {
      case Act(op) => FollowsAct(c, v, actions, op, w, t);
      case Export =>
        FollowsLonger(c, v, actions, a, w, t);
        if Saved(v, w.device).Ok? {
          FollowsExport(c, v, actions + [a], w, t);
        }
      case Import(i) =>
        FollowsLonger(c, v, actions, a, w, t);
        if i < |w.files| && Restored(v, w.files[i]).Ok? {
          FollowsImport(c, v, actions + [a], w, t, i);
        }
    }
  }

  lemma FollowsSnoc(c: Crypto, v: Vault, actions: seq<Action>, earlier: seq<Action>, a: Action)
    requires Faithful(v) && actions == earlier + [a]
    requires Follows(c, v, earlier, Life(c, v, Birth(), earlier), Traced(c, v, earlier))
    ensures Follows(c, v, actions, Life(c, v, Birth(), actions), Traced(c, v, actions))
  {
    assert actions[..|actions| - 1] == earlier;
    FollowsNext(c, v, earlier, a, Life(c, v, Birth(), earlier), Traced(c, v, earlier));
  }

  /**
   Whatever is exported, restored and abandoned: the device is what exactly the operations of its lineage
   make, in the order in which they were done, and every file holds what those of its own lineage make.
   */
  lemma {:induction false} LifeIsItsLineage(c: Crypto, v: Vault, actions: seq<Action>)
    requires Faithful(v)
    ensures Follows(c, v, actions, Life(c, v, Birth(), actions), Traced(c, v, actions))
  {
    if actions != [] {
      var earlier, a := actions[..|actions| - 1], actions[|actions| - 1];
      LifeIsItsLineage(c, v, earlier);
      assert actions == earlier + [a];
      FollowsSnoc(c, v, actions, earlier, a);
    }
  }

  // ---------------------------------------------------------------- no used-up secret without its receipt

  /** The k-th action stages the ciphertext under this sequence number. */
  predicate StagesAt(actions: seq<Action>, k: nat, x: Cipher, sequence: u64) {
    k < |actions| && actions[k] == Act(StageOp(x.group, sequence, x.wire))
  }

  predicate ClearsAt(actions: seq<Action>, l: nat, x: Cipher, sequence: u64) {
    l < |actions| && actions[l] == Act(ClearOp(x.group, sequence))
  }

  /**
   An action among those that made the device staged the ciphertext, and the device holds the receipt with
   the content of the message, or a later one of these actions cleared it.
   */
  ghost predicate Explained(c: Crypto, d: Device, actions: seq<Action>, lineage: seq<nat>, x: Cipher, k: nat, sequence: u64) {
    && k in lineage && StagesAt(actions, k, x, sequence)
    && Bounded(x.group, MAX_GROUP_ID_BYTES) && c.open(x.group, x.wire).Message?
    && (HoldsContent(d, ReceiptKey(x.group, sequence), c.open(x.group, x.wire))
        || exists l :: k < l && l in lineage && ClearsAt(actions, l, x, sequence))
  }

  ghost predicate AllExplained(c: Crypto, d: Device, actions: seq<Action>, lineage: seq<nat>) {
    forall x :: x in d.consumed && !NoReceipt(c, x) ==>
      exists k: nat, sequence: u64 :: Explained(c, d, actions, lineage, x, k, sequence)
  }

  lemma ExplainedFrom(c: Crypto, d: Device, actions: seq<Action>, lineage: seq<nat>, x: Cipher, i: nat)
    requires Picks(actions, lineage) && Accounted(c, d, OpsAt(actions, lineage), x, i)
    ensures Explained(c, d, actions, lineage, x, lineage[i], OpsAt(actions, lineage)[i].sequence)
  {
    var ops := OpsAt(actions, lineage);
    var n := ops[i].sequence;
    assert actions[lineage[i]] == Act(ops[i]);
    if ClearedAfter(ops, i, x.group, n) {
      var l :| i < l < |ops| && ops[l] == ClearOp(x.group, n);
      assert actions[lineage[l]] == Act(ops[l]);
      assert lineage[l] in lineage && ClearsAt(actions, lineage[l], x, n);
    }
  }

  lemma MadeIsExplained(c: Crypto, actions: seq<Action>, lineage: seq<nat>)
    requires Picks(actions, lineage)
    ensures AllExplained(c, Made(c, actions, lineage), actions, lineage)
  {
    var d, ops := Made(c, actions, lineage), OpsAt(actions, lineage);
    RunAccounted(c, ops);
    forall x | x in d.consumed && !NoReceipt(c, x)
      ensures exists k: nat, sequence: u64 :: Explained(c, d, actions, lineage, x, k, sequence)
    {
      var i :| Accounted(c, d, ops, x, i);
      ExplainedFrom(c, d, actions, lineage, x, i);
    }
  }

  /**
   In every life, whatever is exported, restored and abandoned: a ciphertext whose secret the device has used up
   was staged by one of the operations the device is made of, and its receipt, with its own content, is there or
   was cleared by a later one of them - except for contents that never get a receipt. The same holds for
   whatever an import of any file brings back.
   */
  lemma NoConsumptionWithoutReceipt(c: Crypto, v: Vault, actions: seq<Action>)
    requires Faithful(v)
    ensures var w, t := Life(c, v, Birth(), actions), Traced(c, v, actions);
            && AllExplained(c, w.device, actions, t.current)
            && |t.saved| == |w.files|
            && forall i :: 0 <= i < |w.files| && Restored(v, w.files[i]).Ok? ==>
                 AllExplained(c, Restored(v, w.files[i]).value, actions, t.saved[i])
  {
    var w, t := Life(c, v, Birth(), actions), Traced(c, v, actions);
    LifeIsItsLineage(c, v, actions);
    MadeIsExplained(c, actions, t.current);
    forall i | 0 <= i < |w.files| && Restored(v, w.files[i]).Ok?
      ensures AllExplained(c, Restored(v, w.files[i]).value, actions, t.saved[i])
    {
      FollowsImport(c, v, actions, w, t, i);
      MadeIsExplained(c, actions, t.saved[i]);
    }
  }

  // ---------------------------------------------------------------- decrypted once

  /** The k-th action decrypts the ciphertext. */
  ghost predicate DecryptsAt(c: Crypto, v: Vault, w: World, actions: seq<Action>, k: nat, x: Cipher) {
    && k < |actions| && actions[k].Act?
    && Decrypts(c, Life(c, v, w, actions[..k]).device, actions[k].op, x)
  }

  /** The k-th action goes back to a device that has not used up the secret. */
  ghost predicate ForgetsAt(c: Crypto, v: Vault, w: World, actions: seq<Action>, k: nat, x: Cipher) {
    && k < |actions| && actions[k].Import?
    && var files := Life(c, v, w, actions[..k]).files;
    && actions[k].i < |files| && Restored(v, files[actions[k].i]).Ok?
    && x !in Restored(v, files[actions[k].i]).value.consumed
  }

  lemma LifeTo(c: Crypto, v: Vault, w: World, actions: seq<Action>, k: nat)
    requires k < |actions|
    ensures Life(c, v, w, actions[..k + 1]) == Next(c, v, Life(c, v, w, actions[..k]), actions[k])
  {
    assert actions[..k + 1][..k] == actions[..k];
  }

  /** The k-th action goes back to a device that has used up the secret. */
  ghost predicate RemembersAt(c: Crypto, v: Vault, w: World, actions: seq<Action>, k: nat, x: Cipher) {
    && k < |actions| && actions[k].Import?
    && var files := Life(c, v, w, actions[..k]).files;
    && actions[k].i < |files| && Restored(v, files[actions[k].i]).Ok?
    && x in Restored(v, files[actions[k].i]).value.consumed
  }

  /** The k-th action brings the secret into use. */
  ghost predicate UsesAt(c: Crypto, v: Vault, w: World, actions: seq<Action>, k: nat, x: Cipher) {
    DecryptsAt(c, v, w, actions, k, x) || RemembersAt(c, v, w, actions, k, x)
  }

  /** Whether the secret is used up after the first k actions. */
  ghost predicate UsedUp(c: Crypto, v: Vault, w: World, actions: seq<Action>, k: nat, x: Cipher)
    requires k <= |actions|
  {
    x in Life(c, v, w, actions[..k]).device.consumed
  }

  /** What one action does to a secret: nothing but these three changes it. */
  lemma UsedUpNext(c: Crypto, v: Vault, w: World, actions: seq<Action>, k: nat, x: Cipher)
    requires k < |actions|
    ensures UsedUp(c, v, w, actions, k + 1, x)
            <==> !ForgetsAt(c, v, w, actions, k, x)
                 && (UsedUp(c, v, w, actions, k, x) || UsesAt(c, v, w, actions, k, x))
  {
    LifeTo(c, v, w, actions, k);
    if actions[k].Act? {
      ConsumedStays(c, Life(c, v, w, actions[..k]).device, actions[k].op);
    }
  }

  /** The k-th action forgets the secret, and nothing before the j-th brings it back into use. */
  ghost predicate ForgottenFrom(c: Crypto, v: Vault, w: World, actions: seq<Action>, k: nat, j: nat, x: Cipher) {
    && ForgetsAt(c, v, w, actions, k, x)
    && forall l :: k < l < j ==> !UsesAt(c, v, w, actions, l, x)
  }

  ghost function Uses(c: Crypto, v: Vault, w: World, actions: seq<Action>, x: Cipher): (u: seq<bool>)
    ensures |u| == |actions| + 1 && forall n :: 0 <= n <= |actions| ==> u[n] == UsedUp(c, v, w, actions, n, x)
  {
    seq(|actions| + 1, n requires 0 <= n <= |actions| => UsedUp(c, v, w, actions, n, x))
  }

  lemma NotBoth(c: Crypto, v: Vault, w: World, actions: seq<Action>, k: nat, x: Cipher)
    requires ForgetsAt(c, v, w, actions, k, x)
    ensures !UsesAt(c, v, w, actions, k, x)
  {}

  /** An action that leaves the secret unused did not bring it into use. */
  lemma UnusedBehind(c: Crypto, v: Vault, w: World, actions: seq<Action>, l: nat, x: Cipher)
    requires l < |actions| && !UsedUp(c, v, w, actions, l + 1, x)
    ensures !UsesAt(c, v, w, actions, l, x)
  {
    UsedUpNext(c, v, w, actions, l, x);
    if ForgetsAt(c, v, w, actions, l, x) {
      NotBoth(c, v, w, actions, l, x);
    }
  }

  lemma AllUnused(c: Crypto, v: Vault, w: World, actions: seq<Action>, k: nat, j: nat, x: Cipher)
    requires k < j <= |actions| && forall l :: k < l <= j ==> !UsedUp(c, v, w, actions, l, x)
    ensures forall l :: k < l < j ==> !UsesAt(c, v, w, actions, l, x)
  {
    forall l | k < l < j ensures !UsesAt(c, v, w, actions, l, x) {
      UnusedBehind(c, v, w, actions, l, x);
    }
  }

  lemma ForgottenBetween(c: Crypto, v: Vault, w: World, actions: seq<Action>, i: nat, j: nat, x: Cipher)
    returns (k: nat)
    requires i <= j <= |actions| && UsedUp(c, v, w, actions, i, x) && !UsedUp(c, v, w, actions, j, x)
    ensures i <= k < j && ForgottenFrom(c, v, w, actions, k, j, x)
  {
    var u := Uses(c, v, w, actions, x);
    k := LastTrue(u, i, j);
    assert forall l :: k < l <= j ==> !UsedUp(c, v, w, actions, l, x) by {
      assert forall l :: k < l <= j ==> u[l] == UsedUp(c, v, w, actions, l, x);
    }
    AllUnused(c, v, w, actions, k, j, x);
    UsedUpNext(c, v, w, actions, k, x);
  }

  lemma StaysForgotten(c: Crypto, v: Vault, w: World, actions: seq<Action>, k: nat, j: nat, x: Cipher)
    requires k < j <= |actions| && ForgottenFrom(c, v, w, actions, k, j, x)
    ensures !UsedUp(c, v, w, actions, j, x)
  {
    UsedUpNext(c, v, w, actions, k, x);
    forall l | k < l < j && !UsedUp(c, v, w, actions, l, x) ensures !UsedUp(c, v, w, actions, l + 1, x) {
      UsedUpNext(c, v, w, actions, l, x);
    }
    StaysFalse(Uses(c, v, w, actions, x), k + 1, j);
  }

  /** The j-th action would decrypt the ciphertext, were its secret not used up. */
  ghost predicate TriesAt(c: Crypto, v: Vault, w: World, actions: seq<Action>, j: nat, x: Cipher) {
    && j < |actions| && actions[j].Act? && actions[j].op.StageOp?
    && x == Cipher(actions[j].op.group, actions[j].op.wire)
    && Tries(c, Life(c, v, w, actions[..j]).device, actions[j].op.sequence, x)
  }

  lemma DecryptsAtMeans(c: Crypto, v: Vault, w: World, actions: seq<Action>, j: nat, x: Cipher)
    requires j < |actions|
    ensures DecryptsAt(c, v, w, actions, j, x) <==> TriesAt(c, v, w, actions, j, x) && !UsedUp(c, v, w, actions, j, x)
  {
    if actions[j].Act? {
      DecryptsMeans(c, Life(c, v, w, actions[..j]).device, actions[j].op, x);
    }
  }

  /**
   At most one decryption, exactly: after the i-th action has decrypted a ciphertext, a later attempt decrypts it again
   if and only if a restart in between went back to a file whose device had not used up the secret, and no action
   between that restart and the attempt decrypted it or went back to a file whose device had.
   */
  lemma DecryptedOnce(c: Crypto, v: Vault, w: World, actions: seq<Action>, i: nat, j: nat, x: Cipher)
    requires i < j < |actions| && DecryptsAt(c, v, w, actions, i, x)
    ensures DecryptsAt(c, v, w, actions, j, x)
            <==> TriesAt(c, v, w, actions, j, x)
                 && exists k: nat :: i < k < j && ForgottenFrom(c, v, w, actions, k, j, x)
  {
    NotForgotten(c, v, w, actions, i, x);
    UsedUpNext(c, v, w, actions, i, x);
    DecryptsAtMeans(c, v, w, actions, j, x);
    if !UsedUp(c, v, w, actions, j, x) {
      var k := ForgottenBetween(c, v, w, actions, i + 1, j, x);
    }
    if k: nat :| i < k < j && ForgottenFrom(c, v, w, actions, k, j, x) {
      StaysForgotten(c, v, w, actions, k, j, x);
    }
  }

  lemma NotForgotten(c: Crypto, v: Vault, w: World, actions: seq<Action>, i: nat, x: Cipher)
    requires DecryptsAt(c, v, w, actions, i, x)
    ensures !ForgetsAt(c, v, w, actions, i, x)
  {}

  // ---------------------------------------------------------------- receipts survive restarts

  /** No action clears the receipt, and no restart goes back to a file that lacks it. */
  ghost predicate ReceiptKept(v: Vault, w: World, actions: seq<Action>, group: Bytes, sequence: u64, a: Application)
    requires Bounded(group, MAX_GROUP_ID_BYTES)
  {
    && Act(ClearOp(group, sequence)) !in actions
    && forall i: nat :: Import(i) in actions && i < |w.files| ==>
         FileHoldsReceipt(v, w.files[i], ReceiptKey(group, sequence), a)
  }

  predicate FileHoldsReceipt(v: Vault, file: File, key: Bytes, a: Application) {
    Restored(v, file).Ok? ==> HoldsReceipt(Restored(v, file).value, key, a)
  }

  /** The device holds the receipt, and so do the files it left behind since the first n. */
  ghost predicate ReceiptHeld(v: Vault, w: World, n: nat, key: Bytes, a: Application) {
    && Keyed(w.device.outgoing) && HoldsReceipt(w.device, key, a)
    && forall i :: n <= i < |w.files| ==> FileHoldsReceipt(v, w.files[i], key, a)
  }

  lemma StepKeepsKeyed(c: Crypto, d: Device, op: Op)
    requires Keyed(d.outgoing)
    ensures Keyed(Step(c, d, op).outgoing)
  {}

  lemma SaveHoldsReceipt(v: Vault, d: Device, key: Bytes, a: Application)
    requires Faithful(v) && Keyed(d.outgoing) && HoldsReceipt(d, key, a) && Saved(v, d).Ok?
    ensures FileHoldsReceipt(v, Saved(v, d).value, key, a)
  {
    RestoreUndoesSave(v, d);
  }

  lemma NextHoldsReceipt(
    c: Crypto, v: Vault, w: World, x: Action, n: nat, group: Bytes, sequence: u64, a: Application)
    requires Faithful(v) && Bounded(group, MAX_GROUP_ID_BYTES) && x != Act(ClearOp(group, sequence))
    requires ReceiptHeld(v, w, n, ReceiptKey(group, sequence), a)
    requires x.Import? && x.i < n && x.i < |w.files| ==> FileHoldsReceipt(v, w.files[x.i], ReceiptKey(group, sequence), a)
    ensures ReceiptHeld(v, Next(c, v, w, x), n, ReceiptKey(group, sequence), a)
  {
    match x {
      case Act(op) =>
        StepKeepsReceipt(c, w.device, op, group, sequence, a);
        StepKeepsKeyed(c, w.device, op);
      case Export =>
        if Saved(v, w.device).Ok? {
          SaveHoldsReceipt(v, w.device, ReceiptKey(group, sequence), a);
        }
      case Import(i) =>
        if i < |w.files| && Restored(v, w.files[i]).Ok? {
          RestoredIsSound(v, w.files[i]);
          SoundIsKeyed(Restored(v, w.files[i]).value);
        }
    }
  }

  lemma {:induction false} FilesGrow(c: Crypto, v: Vault, w: World, actions: seq<Action>)
    ensures w.files <= Life(c, v, w, actions).files
  {
    if actions != [] {
      FilesGrow(c, v, w, actions[..|actions| - 1]);
    }
  }

  /** An uncleared receipt stays in the device and in every new file, over restarts from new files and from old ones that hold it. */
  lemma {:induction false} ReceiptAlive(
    c: Crypto, v: Vault, w: World, actions: seq<Action>, group: Bytes, sequence: u64, a: Application)
    requires Faithful(v) && Keyed(w.device.outgoing)
    requires Bounded(group, MAX_GROUP_ID_BYTES) && ReceiptKept(v, w, actions, group, sequence, a)
    requires HoldsReceipt(w.device, ReceiptKey(group, sequence), a)
    ensures ReceiptHeld(v, Life(c, v, w, actions), |w.files|, ReceiptKey(group, sequence), a)
  {
    if actions != [] {
      var earlier, last := actions[..|actions| - 1], actions[|actions| - 1];
      assert forall x :: x in earlier ==> x in actions;
      ReceiptAlive(c, v, w, earlier, group, sequence, a);
      FilesGrow(c, v, w, earlier);
      assert last in actions;
      NextHoldsReceipt(c, v, Life(c, v, w, earlier), last, |w.files|, group, sequence, a);
    }
  }

  /**
   Until a receipt is cleared, staging its message again - after any actions and restarts, with
   whatever ciphertext - returns it unchanged and decrypts nothing.
   */
  lemma ReceiptReturned(
    c: Crypto, v: Vault, w: World, actions: seq<Action>, group: Bytes, sequence: u64, a: Application, wire: Bytes)
    requires Faithful(v) && Keyed(w.device.outgoing)
    requires Bounded(group, MAX_GROUP_ID_BYTES) && sequence > 0 && ReceiptKept(v, w, actions, group, sequence, a)
    requires HoldsReceipt(w.device, ReceiptKey(group, sequence), a)
    ensures var d := Life(c, v, w, actions).device;
            && StageResult(c, d, group, sequence, wire) == Ok(a)
            && Staged(c, d, group, sequence, wire) == d
  {
    ReceiptAlive(c, v, w, actions, group, sequence, a);
  }

  // ---------------------------------------------------------------- outgoing messages survive restarts

  predicate FileHoldsOutgoing(v: Vault, file: File, operation: Bytes, o: Outgoing) {
    Restored(v, file).Ok? ==> HoldsOutgoing(Restored(v, file).value, operation, o)
  }

  ghost predicate OutgoingKept(v: Vault, w: World, actions: seq<Action>, operation: Bytes, o: Outgoing) {
    && Act(DropOp(operation)) !in actions
    && forall i: nat :: Import(i) in actions && i < |w.files| ==> FileHoldsOutgoing(v, w.files[i], operation, o)
  }

  ghost predicate OutgoingHeld(v: Vault, w: World, n: nat, operation: Bytes, o: Outgoing) {
    && Keyed(w.device.outgoing) && HoldsOutgoing(w.device, operation, o)
    && forall i :: n <= i < |w.files| ==> FileHoldsOutgoing(v, w.files[i], operation, o)
  }

  lemma SaveHoldsOutgoing(v: Vault, d: Device, operation: Bytes, o: Outgoing)
    requires Faithful(v) && Keyed(d.outgoing) && HoldsOutgoing(d, operation, o) && Saved(v, d).Ok?
    ensures FileHoldsOutgoing(v, Saved(v, d).value, operation, o)
  {
    RestoreUndoesSave(v, d);
  }

  lemma NextHoldsOutgoing(c: Crypto, v: Vault, w: World, x: Action, n: nat, operation: Bytes, o: Outgoing)
    requires Faithful(v) && x != Act(DropOp(operation)) && OutgoingHeld(v, w, n, operation, o)
    requires x.Import? && x.i < n && x.i < |w.files| ==> FileHoldsOutgoing(v, w.files[x.i], operation, o)
    ensures OutgoingHeld(v, Next(c, v, w, x), n, operation, o)
  {
    match x {
      case Act(op) =>
        StepKeepsOutgoing(c, w.device, op, operation, o);
        StepKeepsKeyed(c, w.device, op);
      case Export =>
        if Saved(v, w.device).Ok? {
          SaveHoldsOutgoing(v, w.device, operation, o);
        }
      case Import(i) =>
        if i < |w.files| && Restored(v, w.files[i]).Ok? {
          RestoredIsSound(v, w.files[i]);
          SoundIsKeyed(Restored(v, w.files[i]).value);
        }
    }
  }

  lemma {:induction false} OutgoingAlive(
    c: Crypto, v: Vault, w: World, actions: seq<Action>, operation: Bytes, o: Outgoing)
    requires Faithful(v) && Keyed(w.device.outgoing)
    requires OutgoingKept(v, w, actions, operation, o) && HoldsOutgoing(w.device, operation, o)
    ensures OutgoingHeld(v, Life(c, v, w, actions), |w.files|, operation, o)
  {
    if actions != [] {
      var earlier, last := actions[..|actions| - 1], actions[|actions| - 1];
      assert forall x :: x in earlier ==> x in actions;
      OutgoingAlive(c, v, w, earlier, operation, o);
      FilesGrow(c, v, w, earlier);
      assert last in actions;
      NextHoldsOutgoing(c, v, Life(c, v, w, earlier), last, |w.files|, operation, o);
    }
  }

  /** Until it is cleared, an operation id has one ciphertext: sending it again returns that or is refused. */
  lemma OneCiphertext(
    c: Crypto, v: Vault, w: World, actions: seq<Action>, operation: Bytes, o: Outgoing, group: Bytes, plaintext: Bytes)
    requires Faithful(v) && Keyed(w.device.outgoing)
    requires OutgoingKept(v, w, actions, operation, o) && HoldsOutgoing(w.device, operation, o) && OperationIdOk(operation)
    ensures var d := Life(c, v, w, actions).device;
            && Sent(c, d, group, operation, plaintext) == d
            && SendResult(c, d, group, operation, plaintext)
               == if !Bounded(plaintext, MAX_APPLICATION_BYTES) then Err(InvalidInput)
                  else if o.group == group && o.plaintext == plaintext then Ok(o)
                  else Err(StateConflict)
  {
    OutgoingAlive(c, v, w, actions, operation, o);
  }
}
