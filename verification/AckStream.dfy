/**
 The bytes a replica sends back: one message after the other, cut into reads anywhere. `text` gives the
 message for an offset.
 */
module AckStream {
  import opened Decimal

  type Encoder = nat -> string

  function Encoded(text: Encoder, offsets: seq<nat>): string {
    if offsets == [] then "" else Encoded(text, offsets[..|offsets| - 1]) + text(offsets[|offsets| - 1])
  }

  /** Where message `j` begins. */
  function Boundary(text: Encoder, offsets: seq<nat>, j: nat): nat
    requires j <= |offsets|
  {
    |Encoded(text, offsets[..j])|
  }

  /** What the master makes of bytes it read: an offset to record, an error reply, or something else. */
  datatype Intake = Recorded(offset: int) | Complaint(bytes: string) | Other

  /** The read of `n` bytes at `pos` begins with the whole message `j`. */
  predicate WholeAt(text: Encoder, offsets: seq<nat>, pos: nat, n: nat, j: nat) {
    j < |offsets| && pos == Boundary(text, offsets, j) && Boundary(text, offsets, j + 1) <= pos + n
  }

  /** An error reply, which begins with a byte at which no command can begin. */
  predicate Refused(got: Intake) {
    got.Complaint? && got.bytes != "" && got.bytes[0] == '-'
  }

  /** The read begins with some whole message. */
  ghost predicate BeginsWhole(text: Encoder, offsets: seq<nat>, pos: nat, n: nat) {
    exists j: nat :: WholeAt(text, offsets, pos, n, j)
  }

  /** A read that begins with a whole message records its offset; any other gets an error reply. */
  ghost predicate IntakeOk(text: Encoder, offsets: seq<nat>, pos: nat, n: nat, got: Intake) {
    match got
    case Recorded(offset) => exists j: nat :: WholeAt(text, offsets, pos, n, j) && offset == offsets[j]
    case _ => Refused(got) && !BeginsWhole(text, offsets, pos, n)
  }

  predicate AllFit(offsets: seq<nat>) {
    forall i :: 0 <= i < |offsets| ==> offsets[i] <= INT64_MAX
  }

  ghost predicate NonEmpty(text: Encoder) {
    forall offset :: text(offset) != ""
  }

  // ---------------------------------------------------------------- boundaries

  lemma EncodedSnoc(text: Encoder, offsets: seq<nat>, offset: nat)
    ensures Encoded(text, offsets + [offset]) == Encoded(text, offsets) + text(offset)
  {
    assert (offsets + [offset])[..|offsets|] == offsets;
  }

  lemma NextBoundary(text: Encoder, offsets: seq<nat>, j: nat)
    requires j < |offsets|
    ensures Encoded(text, offsets[..j + 1]) == Encoded(text, offsets[..j]) + text(offsets[j])
    ensures Boundary(text, offsets, j + 1) == Boundary(text, offsets, j) + |text(offsets[j])|
  {
    assert offsets[..j + 1] == offsets[..j] + [offsets[j]];
    EncodedSnoc(text, offsets[..j], offsets[j]);
  }

  lemma {:induction false} EncodedPrefix(text: Encoder, offsets: seq<nat>, j: nat)
    requires j <= |offsets|
    ensures Encoded(text, offsets[..j]) <= Encoded(text, offsets)
    decreases |offsets| - j
  {
    if j == |offsets| {
      assert offsets[..j] == offsets;
    } else {
      NextBoundary(text, offsets, j);
      EncodedPrefix(text, offsets, j + 1);
    }
  }

  lemma {:induction false} BoundariesIncrease(text: Encoder, offsets: seq<nat>, i: nat, j: nat)
    requires NonEmpty(text) && i < j <= |offsets|
    ensures Boundary(text, offsets, i) < Boundary(text, offsets, j)
    decreases j
  {
    NextBoundary(text, offsets, j - 1);
    if i < j - 1 { BoundariesIncrease(text, offsets, i, j - 1); }
  }

  lemma SameBoundaries(text: Encoder, offsets: seq<nat>, more: seq<nat>, j: nat)
    requires offsets <= more && j <= |offsets|
    ensures Boundary(text, more, j) == Boundary(text, offsets, j)
  {
    assert more[..j] == offsets[..j];
  }

  /** Message `j` stands at its boundary. */
  lemma MessageAt(text: Encoder, offsets: seq<nat>, j: nat)
    requires j < |offsets|
    ensures
      var all, start := Encoded(text, offsets), Boundary(text, offsets, j);
      start + |text(offsets[j])| <= |all| && all[start..start + |text(offsets[j])|] == text(offsets[j])
  {
    NextBoundary(text, offsets, j);
    EncodedPrefix(text, offsets, j + 1);
    var some, start := Encoded(text, offsets[..j + 1]), Boundary(text, offsets, j);
    assert some[start..] == text(offsets[j]);
    assert Encoded(text, offsets)[..|some|] == some;
  }

  /** Every position lies in one message. */
  lemma {:induction false} Locate(text: Encoder, offsets: seq<nat>, pos: nat) returns (j: nat)
    requires pos < |Encoded(text, offsets)|
    ensures j < |offsets| && Boundary(text, offsets, j) <= pos < Boundary(text, offsets, j + 1)
    decreases |offsets|
  {
    var n := |offsets| - 1;
    NextBoundary(text, offsets, n);
    assert offsets[..n + 1] == offsets;
    if pos < Boundary(text, offsets, n) {
      j := Locate(text, offsets[..n], pos);
      SameBoundaries(text, offsets[..n], offsets, j);
      SameBoundaries(text, offsets[..n], offsets, j + 1);
    } else {
      j := n;
    }
  }

  /** A read that begins with a whole message begins with exactly one. */
  lemma WholeIsUnique(text: Encoder, offsets: seq<nat>, pos: nat, n: nat, i: nat, j: nat)
    requires NonEmpty(text) && WholeAt(text, offsets, pos, n, i) && WholeAt(text, offsets, pos, n, j)
    ensures i == j
  {
    if i < j {
      BoundariesIncrease(text, offsets, i, j);
    } else if j < i {
      BoundariesIncrease(text, offsets, j, i);
    }
  }

  /** Inside a message no read begins with a whole one. */
  lemma InsideIsNotWhole(text: Encoder, offsets: seq<nat>, pos: nat, n: nat, j: nat)
    requires NonEmpty(text) && j < |offsets| && Boundary(text, offsets, j) <= pos < Boundary(text, offsets, j + 1)
    requires pos > Boundary(text, offsets, j) || pos + n < Boundary(text, offsets, j + 1)
    ensures !BeginsWhole(text, offsets, pos, n)
  {
    forall i: nat ensures !WholeAt(text, offsets, pos, n, i) {
      if WholeAt(text, offsets, pos, n, i) {
        if i < j {
          BoundariesIncrease(text, offsets, i, j);
        } else if j + 1 < i {
          BoundariesIncrease(text, offsets, j + 1, i);
        }
      }
    }
  }

  // ---------------------------------------------------------------- reads

  /**
   How single messages are taken in: a whole one is recorded whatever follows it, part of one is refused, and
   so is anything that begins with a byte from inside one.
   */
  ghost predicate TakesMessages(text: Encoder, takeIn: string -> Intake) {
    && NonEmpty(text)
    && (forall offset: nat, later: string :: offset <= INT64_MAX ==> takeIn(text(offset) + later) == Recorded(offset))
    && (forall offset: nat, n: nat :: offset <= INT64_MAX && n < |text(offset)| ==> Refused(takeIn(text(offset)[..n])))
    && (forall offset: nat, i: nat, bytes: string ::
          0 < i < |text(offset)| && bytes != "" && bytes[0] == text(offset)[i] ==> Refused(takeIn(bytes)))
  }

  /** The read of `n` bytes at `pos` comes out right. */
  ghost predicate ReadOk(text: Encoder, takeIn: string -> Intake, offsets: seq<nat>, pos: nat, n: nat) {
    AllFit(offsets) && 0 < n && pos + n <= |Encoded(text, offsets)| ==>
      IntakeOk(text, offsets, pos, n, takeIn(Encoded(text, offsets)[pos..pos + n]))
  }

  lemma ChunkOf(all: string, start: nat, message: string, pos: nat, n: nat)
    requires start + |message| <= |all| && all[start..start + |message|] == message
    requires start <= pos < start + |message| && 0 < n && pos + n <= |all|
    ensures
      var chunk := all[pos..pos + n];
      && chunk[0] == message[pos - start]
      && (pos == start && n < |message| ==> chunk == message[..n])
      && (pos == start && n >= |message| ==> chunk == message + chunk[|message|..])
  {
    assert all[pos] == all[start..start + |message|][pos - start];
    if pos == start {
      if n < |message| {
        assert all[pos..pos + n] == all[start..start + |message|][..n];
      } else {
        assert all[pos..pos + n][..|message|] == all[start..start + |message|];
      }
    }
  }

  /** However the messages are cut into reads: each read records the message it begins with, or is refused. */
  lemma EveryReadOk(text: Encoder, takeIn: string -> Intake, offsets: seq<nat>, pos: nat, n: nat)
    requires TakesMessages(text, takeIn)
    ensures ReadOk(text, takeIn, offsets, pos, n)
  {
    var all := Encoded(text, offsets);
    if AllFit(offsets) && 0 < n && pos + n <= |all| {
      var chunk := all[pos..pos + n];
      var j := Locate(text, offsets, pos);
      var message, start := text(offsets[j]), Boundary(text, offsets, j);
      MessageAt(text, offsets, j);
      NextBoundary(text, offsets, j);
      ChunkOf(all, start, message, pos, n);
      if pos > start || n < |message| {
        InsideIsNotWhole(text, offsets, pos, n, j);
      } else {
        assert WholeAt(text, offsets, pos, n, j);
      }
    }
  }
}
