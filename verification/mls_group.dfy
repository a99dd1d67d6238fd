/**
 One MLS group as a device of client/native/yappa_mls sees it. OpenMLS itself is abstracted to
 the list of commits a group has merged since its creation (what its transcript hash stands for)
 and at most one pending commit. A commit is accepted by exactly the groups it was made for.
 */
module MlsGroup {
  import opened Common
  import opened Delivery

  datatype Group = Group(joinedAt: nat, history: seq<Wire>, pending: Option<Wire>)

  datatype MlsError =
    | InvalidInput
    | MissingState
    | StateConflict
    | InvalidWireMessage
    | UnexpectedMessageClass
    | CryptographicFailure

  datatype Result<+T> = Ok(value: T) | Err(error: MlsError)

  function Epoch(g: Group): nat {
    |g.history|
  }

  /** The commit a member makes for its current group; `nonce` is its fresh randomness. */
  function CommitBy(g: Group, author: DeviceId, nonce: nat): Wire {
    CommitWire(author, nonce, g.history)
  }

  /** The Welcome that goes with an add: the group as it is after the commit. */
  function WelcomeAfter(g: Group, commit: Wire): Wire {
    WelcomeWire(g.history + [commit])
  }

  /** The Welcome that was prepared with the commit that led a group to an epoch. */
  function WelcomeAt(g: Group, epoch: nat): (w: Wire)
    requires 1 <= epoch <= Epoch(g)
    ensures w == WelcomeWire(g.history[..epoch])
  {
    assert g.history[..epoch - 1] + [g.history[epoch - 1]] == g.history[..epoch];
    WelcomeAfter(g.(history := g.history[..epoch - 1]), g.history[epoch - 1])
  }

  function Merged(g: Group, commit: Wire): Group {
    g.(history := g.history + [commit], pending := None)
  }

  /** A received commit is processed only by another member whose group it was made for. */
  predicate Processable(g: Group, self: DeviceId, wire: Wire) {
    wire.CommitWire? && wire.author != self && wire.basis == g.history
  }

  function Joined(welcome: Wire): Group
    requires welcome.WelcomeWire?
  {
    Group(|welcome.history|, welcome.history, None)
  }
}
