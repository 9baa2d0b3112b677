/** The one-slot mailbox between Gazebo's thread and the worker: the latest snapshot wins, and taking it
    moves it out of the slot.  Each step is one critical section. */
module Mailboxes {
  import opened Numerics
  import opened TrackerStates

  datatype Mailbox = Mailbox(slot: Snapshot, sequence: nat, processed: nat)

  const NO_SNAPSHOT := Snapshot(0.0, 0.0, WallTime, [])
  const EMPTY_MAILBOX := Mailbox(NO_SNAPSHOT, 0, 0)

  /** What a move leaves behind: the scalars stay, the models are gone. */
  function MovedFrom(snapshot: Snapshot): Snapshot {
    snapshot.(models := [])
  }

  function Put(m: Mailbox, snapshot: Snapshot): Mailbox {
    m.(slot := snapshot, sequence := m.sequence + 1)
  }

  predicate Pending(m: Mailbox) {
    m.sequence != m.processed
  }

  function Took(m: Mailbox): Mailbox {
    if Pending(m) then Mailbox(MovedFrom(m.slot), m.sequence, m.sequence) else m
  }

  class SnapshotMailbox {
    var latestSnapshot: Snapshot
    var latestSequence: nat
    var processedSequence: nat

    ghost function State(): Mailbox
      reads this
    {
      Mailbox(latestSnapshot, latestSequence, processedSequence)
    }

    constructor ()
      ensures State() == EMPTY_MAILBOX
    {
      latestSnapshot, latestSequence, processedSequence := NO_SNAPSHOT, 0, 0;
    }

    method Publish(snapshot: Snapshot)
      modifies this
      ensures State() == Put(old(State()), snapshot)
    {
      latestSnapshot := snapshot;
      latestSequence := latestSequence + 1;
    }

    method TakeLatest() returns (taken: Option<Snapshot>)
      modifies this
      ensures State() == Took(old(State()))
      ensures taken == if Pending(old(State())) then Some(old(latestSnapshot)) else None
      ensures Pending(old(State())) ==> latestSnapshot == old(latestSnapshot).(models := [])
    {
      taken := None;
      if latestSequence != processedSequence {
        taken := Some(latestSnapshot);
        latestSnapshot := MovedFrom(latestSnapshot);
        processedSequence := latestSequence;
      }
    }
  }

  // Interleavings.

  datatype Action = Produce(snapshot: Snapshot) | Consume

  datatype Taken = Taken(sequence: nat, snapshot: Snapshot)

  /** A mailbox with the history of what went in, what came out, and what was overwritten unread. */
  datatype Trace = Trace(mailbox: Mailbox, published: seq<Snapshot>, taken: seq<Taken>, overwritten: nat)

  function Step(t: Trace, action: Action): Trace {
    match action
    case Produce(snapshot) =>
      Trace(Put(t.mailbox, snapshot), t.published + [snapshot], t.taken,
            t.overwritten + if Pending(t.mailbox) then 1 else 0)
    case Consume =>
      if Pending(t.mailbox)
      then t.(mailbox := Took(t.mailbox), taken := t.taken + [Taken(t.mailbox.sequence, t.mailbox.slot)])
      else t
  }

  function Run(actions: seq<Action>): Trace {
    if actions == [] then Trace(EMPTY_MAILBOX, [], [], 0)
    else Step(Run(actions[..|actions| - 1]), actions[|actions| - 1])
  }

  ghost predicate MailboxInv(t: Trace) {
    && t.mailbox.processed <= t.mailbox.sequence == |t.published|
    && (Pending(t.mailbox) ==> t.mailbox.slot == t.published[|t.published| - 1])
    && (t.taken == [] ==> t.mailbox.processed == 0)
    && (t.taken != [] ==> t.taken[|t.taken| - 1].sequence == t.mailbox.processed)
    && (forall k :: 0 <= k < |t.taken| ==>
          && 1 <= t.taken[k].sequence <= t.mailbox.processed
          && t.taken[k].snapshot == t.published[t.taken[k].sequence - 1])
    && (forall j, k :: 0 <= j < k < |t.taken| ==> t.taken[j].sequence < t.taken[k].sequence)
    && |t.published| == |t.taken| + t.overwritten + if Pending(t.mailbox) then 1 else 0
  }

  lemma ProduceKeeps(t: Trace, snapshot: Snapshot)
    requires MailboxInv(t)
    ensures MailboxInv(Step(t, Produce(snapshot)))
  {
    var u := Step(t, Produce(snapshot));
    assert forall k :: 0 <= k < |t.published| ==> u.published[k] == t.published[k];
  }

  lemma ConsumeKeeps(t: Trace)
    requires MailboxInv(t)
    ensures MailboxInv(Step(t, Consume))
  {
    if Pending(t.mailbox) {
      var u := Step(t, Consume);
      assert forall k :: 0 <= k < |t.taken| ==> u.taken[k] == t.taken[k];
    }
  }

  /** Under every interleaving: the consumer never gets ahead of the producer and its sequence numbers
      strictly increase, what it takes is the snapshot published under that number and never a moved-from
      one, and every published snapshot is taken, overwritten unread, or the one pending. */
  lemma {:induction false} MailboxProtocol(actions: seq<Action>)
    ensures MailboxInv(Run(actions))
  {
    if actions != [] {
      var front := actions[..|actions| - 1];
      MailboxProtocol(front);
      match actions[|actions| - 1]
      case Produce(snapshot) => ProduceKeeps(Run(front), snapshot);
      case Consume => ConsumeKeeps(Run(front));
    }
  }

  /** A take returns what was published last before it, unless nothing was published since the take before. */
  lemma TakeIsLatest(actions: seq<Action>)
    ensures var before, after := Run(actions), Step(Run(actions), Consume);
      if |after.taken| > |before.taken|
      then after.taken == before.taken + [Taken(|before.published|, before.published[|before.published| - 1])]
      else after == before && |before.published| == before.mailbox.processed
  {
    MailboxProtocol(actions);
  }
}
