/**
 Append-only ledgers whose entries carry the digest of the previous entry: the event log of a run and
 the decision log of an attempt store.  A digest is an injective constructor over the hashed record,
 which itself holds the previous digest, so that equal digests really mean equal histories.
 */
module HashChain {
  import opened Wrappers

  datatype Unsigned<B> = Unsigned(sequence: int, body: B, previous: Option<Digest<B>>)

  datatype Digest<B> = Sha(content: Unsigned<B>)

  datatype Entry<B> = Entry(record: Unsigned<B>, hash: Digest<B>)

  /** One line of a ledger file. */
  datatype Line<B> = Blank | Malformed | Parsed(entry: Entry<B>)

  datatype LedgerError = InvalidJson | BrokenSequence | BrokenChain | InvalidContentHash | ForeignEntry

  /** What an entry of an event ledger holds besides sequence number and digests. */
  datatype EventBody<H, E> = EventBody(runId: string, planHash: H, event: E)

  function TailHash<B>(ledger: seq<Entry<B>>): Option<Digest<B>> {
    if ledger == [] then None else Some(ledger[|ledger| - 1].hash)
  }

  /** The entry at `i` continues the entries before it and carries its own digest. */
  ghost predicate Continues<B>(ledger: seq<Entry<B>>, i: nat)
    requires i < |ledger|
  {
    && ledger[i].record.sequence == i + 1
    && ledger[i].record.previous == TailHash(ledger[..i])
    && ledger[i].hash == Sha(ledger[i].record)
  }

  ghost predicate Verified<B>(ledger: seq<Entry<B>>) {
    forall i :: 0 <= i < |ledger| ==> Continues(ledger, i)
  }

  /** The recorded bodies, oldest first. */
  function Bodies<B>(ledger: seq<Entry<B>>): seq<B> {
    seq(|ledger|, i requires 0 <= i < |ledger| => ledger[i].record.body)
  }

  function NextEntry<B>(ledger: seq<Entry<B>>, body: B): Entry<B> {
    var record := Unsigned(|ledger| + 1, body, TailHash(ledger));
    Entry(record, Sha(record))
  }

  /** The entries of a file, in order, without blank lines. */
  ghost function Entries<B>(lines: seq<Line<B>>): seq<Entry<B>> {
    if lines == [] then []
    else if lines[|lines| - 1].Parsed? then Entries(lines[..|lines| - 1]) + [lines[|lines| - 1].entry]
    else Entries(lines[..|lines| - 1])
  }

  /** The file that holds a ledger. */
  function Lines<B>(ledger: seq<Entry<B>>): seq<Line<B>> {
    seq(|ledger|, i requires 0 <= i < |ledger| => Parsed(ledger[i]))
  }

  /** Writing a ledger and reading its lines gives it back. */
  lemma {:induction false} LinesRoundTrip<B>(ledger: seq<Entry<B>>)
    ensures Entries(Lines(ledger)) == ledger
  {
    if ledger != [] {
      var front := ledger[..|ledger| - 1];
      LinesRoundTrip(front);
      assert Lines(ledger)[..|ledger| - 1] == Lines(front);
    }
  }

  ghost predicate WellFormed<B>(lines: seq<Line<B>>, belongs: B -> bool) {
    && (forall i :: 0 <= i < |lines| ==> !lines[i].Malformed?)
    && Verified(Entries(lines))
    && (forall i :: 0 <= i < |Entries(lines)| ==> belongs(Entries(lines)[i].record.body))
  }

  /** What is wrong with a line after these entries, the first of the checks that fails. */
  ghost predicate Faulty<B>(before: seq<Entry<B>>, line: Line<B>, belongs: B -> bool, error: LedgerError) {
    match line
    case Blank => false
    case Malformed => error.InvalidJson?
    case Parsed(e) =>
      var numbered, linked := e.record.sequence == |before| + 1, e.record.previous == TailHash(before);
      var sealed := e.hash == Sha(e.record);
      match error
      case InvalidJson => false
      case BrokenSequence => !numbered
      case BrokenChain => numbered && !linked
      case InvalidContentHash => numbered && linked && !sealed
      case ForeignEntry => numbered && linked && sealed && !belongs(e.record.body)
  }

  /** The error is about the first line that does not go with those before it. */
  ghost predicate FirstFault<B>(lines: seq<Line<B>>, belongs: B -> bool, error: LedgerError) {
    exists i :: 0 <= i < |lines| && WellFormed(lines[..i], belongs)
      && Faulty(Entries(lines[..i]), lines[i], belongs, error)
  }

  /** The verifying reader: accepts exactly the untampered ledgers of the expected owner. */
  method Read<B(==)>(lines: seq<Line<B>>, belongs: B -> bool) returns (r: Result<seq<Entry<B>>, LedgerError>)
    ensures r.Ok? <==> WellFormed(lines, belongs)
    ensures r.Ok? ==> r.value == Entries(lines)
    ensures r.Err? ==> FirstFault(lines, belongs, r.error)
  {
    var events: seq<Entry<B>> := [];
    var previous: Option<Digest<B>> := None;
    for i := 0 to |lines|
      invariant events == Entries(lines[..i])
      invariant previous == TailHash(events)
      invariant WellFormed(lines[..i], belongs)
    {
      assert lines[..i + 1][..i] == lines[..i];
      match lines[i] {
        case Blank =>
        case Malformed =>
          return Err(InvalidJson);
        case Parsed(entry) =>
          assert Entries(lines[..i + 1]) == events + [entry];
          if entry.record.sequence != |events| + 1 {
            RejectedPrefix(lines, i, belongs);
            return Err(BrokenSequence);
          }
          if entry.record.previous != previous {
            RejectedPrefix(lines, i, belongs);
            return Err(BrokenChain);
          }
          if entry.hash != Sha(entry.record) {
            RejectedPrefix(lines, i, belongs);
            return Err(InvalidContentHash);
          }
          if !belongs(entry.record.body) {
            RejectedPrefix(lines, i, belongs);
            return Err(ForeignEntry);
          }
          ExtendVerified(events, entry);
          previous := Some(entry.hash);
          events := events + [entry];
      }
    }
    assert lines[..|lines|] == lines;
    return Ok(events);
  }

  lemma {:induction false} EntriesPrefix<B>(lines: seq<Line<B>>, i: nat)
    requires i <= |lines|
    ensures Entries(lines[..i]) <= Entries(lines)
    decreases |lines|
  {
    if i < |lines| {
      EntriesPrefix(lines[..|lines| - 1], i);
      assert lines[..|lines| - 1][..i] == lines[..i];
    } else {
      assert lines[..i] == lines;
    }
  }

  lemma RejectedPrefix<B>(lines: seq<Line<B>>, i: nat, belongs: B -> bool)
    requires i < |lines| && lines[i].Parsed?
    requires var e := lines[i].entry; var before := Entries(lines[..i]);
             || e.record.sequence != |before| + 1
             || e.record.previous != TailHash(before)
             || e.hash != Sha(e.record)
             || !belongs(e.record.body)
    ensures !WellFormed(lines, belongs)
  {
    var before, all := Entries(lines[..i]), Entries(lines);
    assert lines[..i + 1][..i] == lines[..i];
    assert Entries(lines[..i + 1]) == before + [lines[i].entry];
    EntriesPrefix(lines, i + 1);
    assert all[|before|] == lines[i].entry && all[..|before|] == before;
    if Verified(all) {
      assert Continues(all, |before|);
    }
  }

  lemma ExtendVerified<B>(ledger: seq<Entry<B>>, entry: Entry<B>)
    requires Verified(ledger)
    requires entry.record.sequence == |ledger| + 1
    requires entry.record.previous == TailHash(ledger)
    requires entry.hash == Sha(entry.record)
    ensures Verified(ledger + [entry])
  {
    var longer := ledger + [entry];
    forall i | 0 <= i < |longer| ensures Continues(longer, i) {
      if i < |ledger| {
        assert Continues(ledger, i);
        assert longer[..i] == ledger[..i];
      } else {
        assert longer[..i] == ledger;
      }
    }
  }

  lemma VerifiedPrefix<B>(ledger: seq<Entry<B>>, n: nat)
    requires Verified(ledger) && n <= |ledger|
    ensures Verified(ledger[..n])
  {
    forall i | 0 <= i < n ensures Continues(ledger[..n], i) {
      assert Continues(ledger, i);
      assert ledger[..n][..i] == ledger[..i];
    }
  }

  /** Appending to a ledger that verifies gives a ledger that verifies and records one more body. */
  lemma AppendVerifies<B>(ledger: seq<Entry<B>>, body: B)
    requires Verified(ledger)
    ensures Verified(ledger + [NextEntry(ledger, body)])
    ensures Bodies(ledger + [NextEntry(ledger, body)]) == Bodies(ledger) + [body]
  {
    ExtendVerified(ledger, NextEntry(ledger, body));
  }

  /** Equal digests anywhere in two verified ledgers mean equal positions and equal histories. */
  lemma {:induction false} HashDeterminesHistory<B>(a: seq<Entry<B>>, i: nat, b: seq<Entry<B>>, j: nat)
    requires Verified(a) && Verified(b)
    requires i < |a| && j < |b| && a[i].hash == b[j].hash
    ensures i == j && a[..i + 1] == b[..j + 1]
    decreases i
  {
    assert Continues(a, i) && Continues(b, j);
    assert a[i] == b[j];
    if i > 0 {
      assert a[..i][|a[..i]| - 1] == a[i - 1] && b[..j][|b[..j]| - 1] == b[j - 1];
      HashDeterminesHistory(a, i - 1, b, j - 1);
      assert a[..i + 1] == a[..i] + [a[i]] && b[..j + 1] == b[..j] + [b[j]];
    } else {
      assert a[..1] == [a[0]] && b[..1] == [b[0]];
    }
  }

  /** The tail digest identifies the ledger: same tail, same entries. */
  lemma TailDeterminesLedger<B>(a: seq<Entry<B>>, b: seq<Entry<B>>)
    requires Verified(a) && Verified(b)
    requires TailHash(a) == TailHash(b)
    ensures a == b
  {
    if a != [] {
      HashDeterminesHistory(a, |a| - 1, b, |b| - 1);
      assert a[..|a|] == a && b[..|b|] == b;
    }
  }

  /** No digest occurs twice in a ledger. */
  lemma HashesAreDistinct<B>(ledger: seq<Entry<B>>, i: nat, j: nat)
    requires Verified(ledger) && i < |ledger| && j < |ledger|
    requires ledger[i].hash == ledger[j].hash
    ensures i == j
  {
    HashDeterminesHistory(ledger, i, ledger, j);
  }
}
