/** Exports and imports told from the state and the file: when each succeeds, with the limits in numbers. */
module StateExportExact {
  import opened Bytes
  import opened Checks
  import opened Common
  import opened MlsGroup
  import opened StateFormat
  import opened StateExport

  /** Every length fits four bytes. */
  ghost predicate AllFit(s: DeviceState) {
    && |s.identity| < 0x1_0000_0000 && |s.publicKey| < 0x1_0000_0000
    && (forall k :: k in s.values ==> |k| < 0x1_0000_0000 && |s.values[k]| < 0x1_0000_0000)
    && (forall k :: k in s.pending ==>
          && |k| < 0x1_0000_0000 && |s.pending[k].credential| < 0x1_0000_0000
          && |s.pending[k].signatureKey| < 0x1_0000_0000 && |s.pending[k].plaintext| < 0x1_0000_0000)
    && (forall k :: k in s.outgoing ==>
          && |s.outgoing[k].group| < 0x1_0000_0000 && |s.outgoing[k].operation| < 0x1_0000_0000
          && |s.outgoing[k].plaintext| < 0x1_0000_0000 && |s.outgoing[k].wire| < 0x1_0000_0000)
  }

  ghost predicate CountsFit(s: DeviceState) {
    |s.values| <= 100000 && |s.pending| <= 1000 && |s.outgoing| <= 1000
  }

  lemma FitsMean(s: DeviceState)
    requires CountsFit(s)
    ensures Writable(s) <==> AllFit(s)
  {}

  /** Up to its last record a section that has one ends within 64 MiB; older versions are where the first two end. */
  ghost predicate SizesFit(s: DeviceState)
    requires Writable(s)
  {
    && (s.values != map[] ==> |Encode(1, s)| <= 67108864)
    && (s.pending != map[] ==> |Encode(2, s)| <= 67108864)
    && (s.outgoing != map[] ==> |Encode(3, s)| <= 67108864)
  }

  lemma Ends(s: DeviceState)
    requires Writable(s)
    ensures |Encode(1, s)| == |UpToValues(s)| && |Encode(2, s)| == |UpToPending(s)|
  {}

  /** A state is exported exactly when context, counts, lengths and sizes allow it, as its version 3 under key and context. */
  lemma ExportedExactly(key: nat, context: Bytes, s: DeviceState)
    ensures CountsFit(s) && AllFit(s) ==> Writable(s)
    ensures Exported(key, context, s)
            == if 1 <= |context| <= 1024 && CountsFit(s) && AllFit(s) && SizesFit(s)
               then Ok(Sealed(key, context, Encode(3, s))) else Err(InvalidInput)
  {
    if CountsFit(s) {
      FitsMean(s);
      if Writable(s) {
        Ends(s);
      }
    }
  }

  /** A file of more than magic and nonce, of at most 64 MiB of plaintext, that begins with the magic. */
  predicate LooksLikeAFile(file: File) {
    match file
    case Sealed(_, _, plaintext) => |plaintext| <= 67108864
    case Foreign(length, magic) => magic && 16 < length && length <= 67108896
  }

  /** What is asked of a file before it is decoded. */
  function OpenRequirements(key: nat, context: Bytes, file: File): seq<Check<MlsError>> {
    [Check(1 <= |context| <= 1024, InvalidInput),
     Check(LooksLikeAFile(file), InvalidInput),
     Check(file.Sealed? && file.key == key && file.context == context, CryptographicFailure)]
  }

  function OpenProblem(key: nat, context: Bytes, file: File): Option<MlsError> {
    if !Bounded(context, 1024) || !FileGate(file) then Some(InvalidInput)
    else if file.Foreign? || file.key != key || file.context != context then Some(CryptographicFailure)
    else None
  }

  lemma OpenMeans(key: nat, context: Bytes, file: File)
    ensures Answers(OpenRequirements(key, context, file), OpenProblem(key, context, file))
  {
    var r := OpenRequirements(key, context, file);
    InOrder3(r[0], r[1], r[2], OpenProblem(key, context, file));
    assert r == [r[0], r[1], r[2]];
  }

  function ImportProblem(
    key: nat, context: Bytes, file: File, hasSigner: (map<Bytes, Bytes>, Bytes) -> bool): Option<MlsError>
  {
    match Imported(key, context, file, hasSigner)
    case Ok(_) => None
    case Err(error) => Some(error)
  }

  /** What is asked of its plaintext. */
  function PlaintextRequirements(file: File, hasSigner: (map<Bytes, Bytes>, Bytes) -> bool): seq<Check<MlsError>>
    requires file.Sealed?
  {
    var s := Decode(file.plaintext);
    [Check(s.Ok?, if s.Err? then s.error else InvalidInput),
     Check(s.Ok? ==> hasSigner(s.value.values, s.value.publicKey), CryptographicFailure)]
  }

  /** A file is imported exactly when all this is met, and then as the state its plaintext decodes to. */
  lemma ImportedExactly(key: nat, context: Bytes, file: File, hasSigner: (map<Bytes, Bytes>, Bytes) -> bool)
    ensures Answers(
              OpenRequirements(key, context, file) + (if file.Sealed? then PlaintextRequirements(file, hasSigner) else []),
              ImportProblem(key, context, file, hasSigner))
    ensures Imported(key, context, file, hasSigner).Ok? ==>
              file.Sealed? && Decode(file.plaintext) == Imported(key, context, file, hasSigner)
  {
    var problem := ImportProblem(key, context, file, hasSigner);
    OpenMeans(key, context, file);
    if OpenProblem(key, context, file) == None {
      var r := PlaintextRequirements(file, hasSigner);
      InOrder2(r[0], r[1], problem);
      assert r == [r[0], r[1]];
    }
    InTwoParts(OpenRequirements(key, context, file),
               if file.Sealed? then PlaintextRequirements(file, hasSigner) else [],
               OpenProblem(key, context, file), problem);
  }
}
