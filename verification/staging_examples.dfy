/** Two short runs from a new device: an oversized message that is lost, and a sender without a name. */
module StagingExamples {
  import opened Common
  import opened Bytes
  import opened MlsGroup
  import opened StateFormat
  import opened StateExport
  import opened Staging
  import opened StagingTheorems
  import opened Restarts
  import opened RestartTheorems
  import opened VaultExample

  /** Every ciphertext of epoch 0 opens to this plaintext of this sender. */
  function OpensTo(plaintext: Bytes, credential: Bytes): Crypto {
    Crypto((group, wire) => Message(0, plaintext, credential, Zeros(32)), (group, sealed, p) => p)
  }

  /** A device joins group [1] and stages the ciphertext [1] as its first message. */
  function JoinAndStage(): seq<Op> {
    [RegroupOp(Groups()), StageOp([1], 1, [1])]
  }

  lemma AfterJoinAndStage(c: Crypto)
    ensures Run(c, NewDevice(), JoinAndStage())
            == Staged(c, NewDevice().(groups := Groups()), [1], 1, [1])
  {
    var ops := JoinAndStage();
    assert ops[..1] == [ops[0]] && ops[..1][..0] == [];
    assert Run(c, NewDevice(), ops[..1]) == Step(c, NewDevice(), ops[0]);
  }

  /**
   A message one byte over the limit: the secret is used up, there is no receipt, and staging it again,
   under any sequence number, fails.
   */
  lemma OversizedIsGone(sequence: u64)
    ensures var c := OpensTo(Zeros(MAX_APPLICATION_BYTES + 1), [1]);
            var d := Run(c, NewDevice(), JoinAndStage());
            && Cipher([1], [1]) in d.consumed && d.pending == map[]
            && StageResult(c, d, [1], sequence, [1]).Err?
            && (sequence > 0 ==> StageResult(c, d, [1], sequence, [1]) == Err(CryptographicFailure))
  {
    var c := OpensTo(Zeros(MAX_APPLICATION_BYTES + 1), [1]);
    AfterJoinAndStage(c);
    assert NoReceipt(c, Cipher([1], [1]));
  }

  lemma NamelessIsStaged()
    ensures var d := Run(OpensTo([], []), NewDevice(), JoinAndStage());
            && d.groups == Groups() && d.consumed == {Cipher([1], [1])} && d.sealed == 0
            && d.pending == map[ReceiptKey([1], 1) := Application([], [], Zeros(32), 0)] && d.outgoing == map[]
  {
    AfterJoinAndStage(OpensTo([], []));
  }

  /**
   A message from a member with an empty credential: its receipt is made, and in every installation whatever is then
   exported of this device is refused by the import. The export of this very device succeeds in an installation
   whose storage keeps everything.
   */
  lemma NamelessSenderBlocksRestarts(v: Vault)
    ensures var d := Run(OpensTo([], []), NewDevice(), JoinAndStage());
            && HoldsReceipt(d, ReceiptKey([1], 1), Application([], [], Zeros(32), 0))
            && (Saved(v, d).Ok? ==> Restored(v, Saved(v, d).value).Err?)
            && Faithful(TheVault()) && Saved(TheVault(), d).Ok?
            && Restored(TheVault(), Saved(TheVault(), d).value).Err?
  {
    var d := Run(OpensTo([], []), NewDevice(), JoinAndStage());
    NamelessIsStaged();
    TheVaultIsFaithful();
    SmallDeviceIsSaved(d);
    BadSenderBlocksImport(TheVault(), d, ReceiptKey([1], 1));
    if Saved(v, d).Ok? {
      BadSenderBlocksImport(v, d, ReceiptKey([1], 1));
    }
  }

  // ---------------------------------------------------------------- a ciphertext that is decrypted twice

  /** A device is exported, stages a message, is restarted from that file, and stages the message again. */
  function BackToBefore(): seq<Action> {
    [Act(RegroupOp(Groups())), Export, Act(StageOp([1], 1, [1])), Import(0), Act(StageOp([1], 1, [1]))]
  }

  function Joined(): Device {
    NewDevice().(groups := Groups())
  }

  lemma JoinedIsRestored()
    ensures Saved(TheVault(), Joined()).Ok?
    ensures Restored(TheVault(), Saved(TheVault(), Joined()).value) == Ok(Joined())
  {
    TheVaultIsFaithful();
    SmallDeviceIsSaved(Joined());
    WellFormedExactly(TheVault(), Joined());
    RestoreUndoesSave(TheVault(), Joined());
  }

  /** Five such actions of any installation whose first file brings the device back. */
  ghost predicate GoesBack(v: Vault, a: seq<Action>, d: Device, first: Op, op: Op) {
    && a == [Act(first), Export, Act(op), Import(0), Act(op)]
    && Saved(v, d).Ok? && Restored(v, Saved(v, d).value) == Ok(d)
  }

  lemma LifeOn(c: Crypto, v: Vault, a: seq<Action>, k: nat, before: World, after: World)
    requires k < |a| && Life(c, v, Birth(), a[..k]) == before && Next(c, v, before, a[k]) == after
    ensures Life(c, v, Birth(), a[..k + 1]) == after
  {
    LifeTo(c, v, Birth(), a, k);
  }

  lemma NextExport(c: Crypto, v: Vault, d: Device)
    requires Saved(v, d).Ok?
    ensures Next(c, v, World(d, []), Export) == World(d, [Saved(v, d).value])
  {}

  lemma NextImport(c: Crypto, v: Vault, e: Device, file: File, d: Device)
    requires Restored(v, file) == Ok(d)
    ensures Next(c, v, World(e, [file]), Import(0)) == World(d, [file])
  {}

  lemma NextAct(c: Crypto, v: Vault, w: World, op: Op)
    ensures Next(c, v, w, Act(op)) == w.(device := Step(c, w.device, op))
  {}

  lemma NothingYet(c: Crypto, v: Vault, a: seq<Action>)
    ensures Life(c, v, Birth(), a[..0]) == Birth()
  {}

  lemma UntilExport(c: Crypto, v: Vault, a: seq<Action>, d: Device, first: Op)
    requires |a| >= 2 && a[0] == Act(first) && a[1] == Export && d == Step(c, NewDevice(), first) && Saved(v, d).Ok?
    ensures Life(c, v, Birth(), a[..2]) == World(d, [Saved(v, d).value])
  {
    NothingYet(c, v, a);
    NextAct(c, v, Birth(), first);
    LifeOn(c, v, a, 0, Birth(), World(d, []));
    NextExport(c, v, d);
    LifeOn(c, v, a, 1, World(d, []), World(d, [Saved(v, d).value]));
  }

  lemma UntilImport(c: Crypto, v: Vault, a: seq<Action>, d: Device, op: Op, file: File)
    requires |a| >= 4 && a[2] == Act(op) && a[3] == Import(0) && Restored(v, file) == Ok(d)
    requires Life(c, v, Birth(), a[..2]) == World(d, [file])
    ensures Life(c, v, Birth(), a[..3]) == World(Step(c, d, op), [file])
    ensures Life(c, v, Birth(), a[..4]) == World(d, [file])
  {
    NextAct(c, v, World(d, [file]), op);
    LifeOn(c, v, a, 2, World(d, [file]), World(Step(c, d, op), [file]));
    NextImport(c, v, Step(c, d, op), file, d);
    LifeOn(c, v, a, 3, World(Step(c, d, op), [file]), World(d, [file]));
  }

  lemma StagesOnce(c: Crypto)
    requires c == OpensTo([1], [1])
    ensures Decrypts(c, Joined(), StageOp([1], 1, [1]), Cipher([1], [1]))
  {}

  /** The third and the fifth action decrypt the ciphertext, and the restart between them forgets it. */
  ghost predicate Twice(c: Crypto, v: Vault, a: seq<Action>, x: Cipher) {
    DecryptsAt(c, v, Birth(), a, 2, x) && ForgetsAt(c, v, Birth(), a, 3, x) && DecryptsAt(c, v, Birth(), a, 4, x)
  }

  lemma DecryptsHere(c: Crypto, v: Vault, a: seq<Action>, k: nat, w: World, op: Op, x: Cipher)
    requires k < |a| && a[k] == Act(op) && Life(c, v, Birth(), a[..k]) == w && Decrypts(c, w.device, op, x)
    ensures DecryptsAt(c, v, Birth(), a, k, x)
  {}

  lemma ForgetsHere(c: Crypto, v: Vault, a: seq<Action>, k: nat, w: World, d: Device, x: Cipher)
    requires k < |a| && a[k] == Import(0) && Life(c, v, Birth(), a[..k]) == w
    requires |w.files| == 1 && Restored(v, w.files[0]) == Ok(d) && x !in d.consumed
    ensures ForgetsAt(c, v, Birth(), a, k, x)
  {}

  lemma GoesBackMeans(v: Vault, a: seq<Action>, d: Device, first: Op, op: Op)
    requires GoesBack(v, a, d, first, op)
    ensures |a| == 5 && a[0] == Act(first) && a[1] == Export && a[2] == Act(op) && a[3] == Import(0) && a[4] == Act(op)
    ensures Saved(v, d).Ok? && Restored(v, Saved(v, d).value) == Ok(d)
  {}

  lemma TwiceFrom(c: Crypto, v: Vault, a: seq<Action>, d: Device, first: Op, op: Op, x: Cipher)
    requires d == Step(c, NewDevice(), first) && GoesBack(v, a, d, first, op) && Decrypts(c, d, op, x)
    ensures Twice(c, v, a, x)
  {
    GoesBackMeans(v, a, d, first, op);
    assert Life(c, v, Birth(), a[..2]) == World(d, [Saved(v, d).value]) by {
      UntilExport(c, v, a, d, first);
    }
    AroundRestart(c, v, a, d, op, Saved(v, d).value, x);
  }

  lemma AroundRestart(c: Crypto, v: Vault, a: seq<Action>, d: Device, op: Op, file: File, x: Cipher)
    requires |a| == 5 && a[2] == Act(op) && a[3] == Import(0) && a[4] == Act(op) && Restored(v, file) == Ok(d)
    requires Life(c, v, Birth(), a[..2]) == World(d, [file]) && Decrypts(c, d, op, x)
    ensures Twice(c, v, a, x)
  {
    assert DecryptsAt(c, v, Birth(), a, 2, x) by {
      DecryptsHere(c, v, a, 2, World(d, [file]), op, x);
    }
    UntilImport(c, v, a, d, op, file);
    assert ForgetsAt(c, v, Birth(), a, 3, x) by {
      ForgetsHere(c, v, a, 3, World(Step(c, d, op), [file]), d, x);
    }
    assert DecryptsAt(c, v, Birth(), a, 4, x) by {
      DecryptsHere(c, v, a, 4, World(d, [file]), op, x);
    }
  }

  lemma JoinedGoesBack()
    ensures GoesBack(TheVault(), BackToBefore(), Joined(), RegroupOp(Groups()), StageOp([1], 1, [1]))
  {
    JoinedIsRestored();
  }

  lemma JoinedFirst(c: Crypto)
    ensures Joined() == Step(c, NewDevice(), RegroupOp(Groups()))
  {}

  /** From the start: the same ciphertext is decrypted before and after a restart from the older file. */
  lemma DecryptedTwice()
    ensures Faithful(TheVault())
    ensures Twice(OpensTo([1], [1]), TheVault(), BackToBefore(), Cipher([1], [1]))
  {
    TheVaultIsFaithful();
    var c, v, a := OpensTo([1], [1]), TheVault(), BackToBefore();
    assert Twice(c, v, a, Cipher([1], [1])) by {
      JoinedGoesBack();
      JoinedFirst(c);
      StagesOnce(c);
      TwiceFrom(c, v, a, Joined(), RegroupOp(Groups()), StageOp([1], 1, [1]), Cipher([1], [1]));
    }
  }
}
