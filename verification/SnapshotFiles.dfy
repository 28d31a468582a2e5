/**
 The files that snapshots are written to.  Snapshots are evidence of one attempt each, so no file may
 be written twice; the file name, however, holds an escaped form of the action id.
 */
module SnapshotFiles {
  import opened Order
  import opened Dotted
  import opened JsonPointer
  import opened RunLedger
  import opened RunDirectory

  /** Every slash becomes an underscore. */
  function Underscored(s: string): string {
    ReplaceChar(s, '/', "_")
  }

  lemma {:induction false} NoSlashUnchanged(s: string)
    requires '/' !in s
    ensures Underscored(s) == s
  {
    if s != "" {
      NoSlashUnchanged(s[1..]);
    }
  }

  predicate HasDoubleDot(s: string) {
    exists i :: 0 <= i < |s| - 1 && s[i] == '.' && s[i + 1] == '.'
  }

  /** Every pair of dots, from the left, becomes an underscore. */
  function Undotted(s: string): (r: string)
    ensures !HasDoubleDot(s) ==> r == s
  {
    if |s| < 2 then s
    else if s[0] == '.' && s[1] == '.' then "_" + Undotted(s[2..])
    else
      assert HasDoubleDot(s[1..]) ==> HasDoubleDot(s) by {
        if HasDoubleDot(s[1..]) {
          var i :| 0 <= i < |s[1..]| - 1 && s[1..][i] == '.' && s[1..][i + 1] == '.';
          assert s[i + 1] == '.' && s[i + 2] == '.';
        }
      }
      [s[0]] + Undotted(s[1..])
  }

  function SafeId(id: string): string {
    Undotted(Underscored(id))
  }

  /** At least three digits. */
  function Padded(n: nat): string {
    (if n < 10 then "00" else if n < 100 then "0" else "") + Decimal(n)
  }

  function PhaseName(p: Phase): string {
    match p
    case Before => "before"
    case After => "after"
    case Failure => "failure"
  }

  function NameOf(safeId: string, attempt: nat, phase: Phase): string {
    safeId + "." + ("attempt-" + Padded(attempt)) + "." + PhaseName(phase) + ".json"
  }

  function FileName(k: SnapshotKey): string {
    NameOf(SafeId(k.action), k.attempt, k.phase)
  }

  /** The name of a snapshot file: escaped id, number of the attempt with at least three digits, and phase. */
  lemma NameMeaning(k: SnapshotKey) returns (digits: string)
    ensures FileName(k) == SafeId(k.action) + ".attempt-" + digits
                           + (match k.phase case Before => ".before.json" case After => ".after.json"
                                            case Failure => ".failure.json")
    ensures IsDigits(digits) && ParseDigits(digits) == k.attempt
    ensures |digits| >= 3 && (|digits| > 3 ==> digits[0] != '0')
  {
    digits := Padded(k.attempt);
    PaddedValue(k.attempt);
    PaddedLength(k.attempt);
    var safe, phase := SafeId(k.action), PhaseName(k.phase);
    assert ".attempt-" == "." + "attempt-";
    assert safe + "." + ("attempt-" + digits) == safe + ".attempt-" + digits;
    assert "." + phase + ".json" == match k.phase case Before => ".before.json" case After => ".after.json"
                                                  case Failure => ".failure.json";
    assert safe + ".attempt-" + digits + "." + phase + ".json" == safe + ".attempt-" + digits + ("." + phase + ".json");
  }

  lemma PaddedLength(n: nat)
    ensures |Padded(n)| >= 3 && (|Padded(n)| > 3 ==> Padded(n)[0] != '0')
  {
    DecimalRoundTrip(n);
    DecimalLength(n);
  }

  lemma DecimalLength(n: nat)
    ensures n < 10 ==> |Decimal(n)| == 1
    ensures 10 <= n < 100 ==> |Decimal(n)| == 2
    ensures 100 <= n ==> |Decimal(n)| >= 3
  {
  }

  /** The escaped id has no slash and no two dots in a row; an id without either is used as it is. */
  lemma SafeIdMeaning(id: string)
    ensures '/' !in SafeId(id) && !HasDoubleDot(SafeId(id))
    ensures '/' !in id && !HasDoubleDot(id) ==> SafeId(id) == id
  {
    ReplacedCharGone(id, '/', "_");
    UndottedIsClean(Underscored(id));
    if '/' !in id {
      NoSlashUnchanged(id);
    }
  }

  lemma {:induction false} UndottedIsClean(s: string)
    ensures !HasDoubleDot(Undotted(s)) && ('/' !in s ==> '/' !in Undotted(s))
    ensures s != "" && s[0] != '.' ==> Undotted(s)[0] == s[0]
    ensures |s| >= 2 && s[0] == '.' && s[1] != '.' ==> |Undotted(s)| >= 2 && Undotted(s)[1] != '.'
    ensures |s| == 1 ==> Undotted(s) == s
  {
    if |s| >= 2 {
      if s[0] == '.' && s[1] == '.' {
        UndottedIsClean(s[2..]);
      } else {
        UndottedIsClean(s[1..]);
      }
    }
  }

  lemma UndottedStep(c: char, t: string)
    requires t != "" && !(c == '.' && t[0] == '.')
    ensures Undotted([c] + t) == [c] + Undotted(t)
  {
    assert ([c] + t)[1..] == t;
  }

  lemma UndottedDots(y: string)
    ensures Undotted(".." + y) == "_" + Undotted(y)
  {
    assert (".." + y)[2..] == y;
  }

  lemma DoubleDotTail(c: char, t: string)
    ensures HasDoubleDot(t) || (t != "" && c == '.' && t[0] == '.') ==> HasDoubleDot([c] + t)
  {
    var s := [c] + t;
    if HasDoubleDot(t) {
      var i :| 0 <= i < |t| - 1 && t[i] == '.' && t[i + 1] == '.';
      assert s[i + 1] == '.' && s[i + 2] == '.';
    }
    if t != "" && c == '.' && t[0] == '.' {
      assert s[0] == '.' && s[1] == '.';
    }
  }

  lemma Shifted(x: string, tail: string)
    requires x != ""
    ensures x + tail == [x[0]] + (x[1..] + tail)
  {
  }

  lemma {:induction false} FirstDotsBefore(x: string, tail: string, dot: string)
    requires tail != "" && tail[0] == '.' && dot == "." && !HasDoubleDot(x + dot)
    ensures Undotted(x + tail) == x + Undotted(tail)
  {
    if x == "" {
      assert x + tail == tail && x + Undotted(tail) == Undotted(tail);
    } else {
      Shifted(x, tail);
      Shifted(x, dot);
      Shifted(x, Undotted(tail));
      DoubleDotTail(x[0], x[1..] + dot);
      FirstDotsBefore(x[1..], tail, dot);
      UndottedStep(x[0], x[1..] + tail);
    }
  }

  /** The first two dots in a row become an underscore, and the rest is escaped after them. */
  lemma FirstDotsReplaced(x: string, y: string)
    requires !HasDoubleDot(x + ".")
    ensures Undotted(x + (".." + y)) == x + ("_" + Undotted(y))
  {
    UndottedDots(y);
    FirstDotsBefore(x, ".." + y, ".");
  }

  predicate DotFree(s: string) {
    forall i :: 0 <= i < |s| ==> s[i] != '.'
  }

  /** What follows the last dot, and what precedes it, are determined. */
  lemma LastDot(x: string, p: string, y: string, q: string)
    requires x + "." + p == y + "." + q && DotFree(p) && DotFree(q)
    ensures x == y && p == q
  {
    var s, t := x + "." + p, y + "." + q;
    assert s[|x|] == '.' && t[|y|] == '.';
    assert |x| == |y|;
    assert x == s[..|x|] && y == t[..|y|];
    assert p == s[|x| + 1..] && q == t[|y| + 1..];
  }

  lemma PaddedValue(n: nat)
    ensures IsDigits(Padded(n)) && ParseDigits(Padded(n)) == n
  {
    DecimalRoundTrip(n);
    var d := Decimal(n);
    if n < 10 {
      LeadingZero(d);
      LeadingZero("0" + d);
      assert "00" + d == "0" + ("0" + d);
    } else if n < 100 {
      LeadingZero(d);
    } else {
      assert "" + d == d;
    }
  }

  lemma {:induction false} LeadingZero(s: string)
    requires IsDigits(s)
    ensures IsDigits("0" + s) && ParseDigits("0" + s) == ParseDigits(s)
  {
    var longer := "0" + s;
    var front := s[..|s| - 1];
    assert longer[..|longer| - 1] == "0" + front;
    if front != "" {
      LeadingZero(front);
    } else {
      assert longer[..|longer| - 1] == "0";
    }
  }

  /** The dots that a name adds are found again from its end. */
  lemma NameParts(x: string, n: string, p: string, y: string, m: string, q: string)
    requires DotFree(n) && DotFree(p) && DotFree(m) && DotFree(q)
    requires x + "." + n + "." + p + ".json" == y + "." + m + "." + q + ".json"
    ensures x == y && n == m && p == q
  {
    SameEnding(x + "." + n + "." + p, y + "." + m + "." + q, ".json");
    LastDot(x + "." + n, p, y + "." + m, q);
    LastDot(x, n, y, m);
  }

  lemma AttemptText(n: nat)
    ensures DotFree("attempt-" + Padded(n)) && ("attempt-" + Padded(n))[8..] == Padded(n)
  {
    PaddedValue(n);
  }

  lemma SameFileParts(x: string, n: nat, p: Phase, y: string, m: nat, q: Phase)
    requires NameOf(x, n, p) == NameOf(y, m, q)
    ensures x == y && n == m && p == q
  {
    AttemptText(n);
    AttemptText(m);
    NameParts(x, "attempt-" + Padded(n), PhaseName(p), y, "attempt-" + Padded(m), PhaseName(q));
    PaddedValue(n);
    PaddedValue(m);
  }

  /** Two snapshots share a file exactly when escaped id, attempt and phase agree. */
  lemma SameFileIff(a: SnapshotKey, b: SnapshotKey)
    ensures FileName(a) == FileName(b) <==>
              SafeId(a.action) == SafeId(b.action) && a.attempt == b.attempt && a.phase == b.phase
  {
    if FileName(a) == FileName(b) {
      SameFileParts(SafeId(a.action), a.attempt, a.phase, SafeId(b.action), b.attempt, b.phase);
    }
  }

  lemma SameEnding(x: string, y: string, end: string)
    requires x + end == y + end
    ensures x == y
  {
    assert |x + end| == |y + end|;
    assert x == (x + end)[..|x|] && y == (y + end)[..|y|];
  }

  function Files(keys: seq<SnapshotKey>): (r: seq<string>)
    ensures |r| == |keys|
  {
    seq(|keys|, i requires 0 <= i < |keys| => FileName(keys[i]))
  }

  predicate Among(keys: seq<SnapshotKey>, ids: set<string>) {
    forall i :: 0 <= i < |keys| ==> keys[i].action in ids
  }

  /** The escaping keeps the ids of a plan apart. */
  predicate KeepsApart(ids: set<string>) {
    forall a, b :: a in ids && b in ids && SafeId(a) == SafeId(b) ==> a == b
  }

  ghost predicate NeverOverwrites(ids: set<string>) {
    forall keys {:trigger Among(keys, ids)} :: Among(keys, ids) && NoRepeats(keys) ==> NoRepeats(Files(keys))
  }

  lemma DistinctKeysDistinctFiles(ids: set<string>, keys: seq<SnapshotKey>)
    requires KeepsApart(ids) && Among(keys, ids) && NoRepeats(keys)
    ensures NoRepeats(Files(keys))
  {
    forall i, j | 0 <= i < j < |keys| ensures Files(keys)[i] != Files(keys)[j] {
      SameFileIff(keys[i], keys[j]);
    }
  }

  /** Distinct snapshots of a set of actions never share a file exactly when the escaping keeps the ids apart. */
  lemma NeverOverwritesIff(ids: set<string>)
    ensures NeverOverwrites(ids) <==> KeepsApart(ids)
  {
    if KeepsApart(ids) {
      forall keys | Among(keys, ids) && NoRepeats(keys) ensures NoRepeats(Files(keys)) {
        DistinctKeysDistinctFiles(ids, keys);
      }
    } else {
      var a, b :| a in ids && b in ids && SafeId(a) == SafeId(b) && a != b;
      var keys := [SnapshotKey(a, 1, Before), SnapshotKey(b, 1, Before)];
      assert Among(keys, ids) && NoRepeats(keys);
      SameFileIff(keys[0], keys[1]);
      assert Files(keys)[0] == Files(keys)[1];
    }
  }

  /** Ids without a slash and without two dots in a row, as schema identifiers are, are kept apart. */
  lemma PlainIdsKeptApart(ids: set<string>)
    requires forall a :: a in ids ==> !HasDoubleDot(a) && '/' !in a
    ensures KeepsApart(ids)
  {
    forall a, b | a in ids && b in ids && SafeId(a) == SafeId(b) ensures a == b {
      NoSlashUnchanged(a);
      NoSlashUnchanged(b);
    }
  }

  /** Ids that a hand-written plan may use can collide: one snapshot then replaces the other. */
  lemma SlashAndUnderscoreCollide()
    ensures !NeverOverwrites({"a/b", "a_b"})
  {
    var slash, underscore := "a/b", "a_b";
    assert Underscored(slash) == underscore && Underscored(underscore) == underscore;
    assert slash != underscore && SafeId(slash) == SafeId(underscore);
    NeverOverwritesIff({slash, underscore});
  }

  /** So no snapshot that the executor has written is ever replaced by another. */
  lemma RecordedSnapshotsKeepTheirFiles(snapshots: seq<SnapshotKey>, l: Events, ids: set<string>)
    requires SnapshotsOk(snapshots, l) && Among(snapshots, ids) && KeepsApart(ids)
    ensures NoRepeats(Files(snapshots))
  {
    DistinctKeysDistinctFiles(ids, snapshots);
  }
}
