/** The artifact and checkpoint manifests of a run. */
module Manifests {
  import opened Wrappers
  import opened Order
  import opened Sorting
  import opened Strings

  datatype ArtifactRecord = ArtifactRecord(uri: string, role: string, sha256: Option<string>, outputId: Option<string>)

  datatype ManifestEntry = ManifestEntry(record: ArtifactRecord, actionId: string, attempt: nat)

  predicate SameIdentity(a: ManifestEntry, b: ManifestEntry) {
    a.record.uri == b.record.uri && a.record.role == b.record.role && a.actionId == b.actionId && a.attempt == b.attempt
  }

  /** The sort key of the program: action, role, uri. */
  predicate KeyLe(a: ManifestEntry, b: ManifestEntry) {
    if a.actionId != b.actionId then Le(a.actionId, b.actionId)
    else if a.record.role != b.record.role then Le(a.record.role, b.record.role)
    else Le(a.record.uri, b.record.uri)
  }

  predicate SameKey(a: ManifestEntry, b: ManifestEntry) {
    a.actionId == b.actionId && a.record.role == b.record.role && a.record.uri == b.record.uri
  }

  /** Key first, then attempt: the order that manifests turn out to have. */
  predicate FullLe(a: ManifestEntry, b: ManifestEntry) {
    if SameKey(a, b) then a.attempt <= b.attempt else KeyLe(a, b)
  }

  ghost predicate UniqueIdentities(entries: seq<ManifestEntry>) {
    forall i, j :: 0 <= i < j < |entries| ==> !SameIdentity(entries[i], entries[j])
  }

  ghost predicate WellOrdered(entries: seq<ManifestEntry>) {
    UniqueIdentities(entries) && Sorted(FullLe, entries)
  }

  lemma KeyLeTotal(a: ManifestEntry, b: ManifestEntry)
    ensures KeyLe(a, b) || KeyLe(b, a)
    ensures KeyLe(a, b) && KeyLe(b, a) ==> SameKey(a, b)
  {
    LeTotal(a.actionId, b.actionId);
    LeTotal(a.record.role, b.record.role);
    LeTotal(a.record.uri, b.record.uri);
  }

  lemma KeyLeTransitive(a: ManifestEntry, b: ManifestEntry, c: ManifestEntry)
    requires KeyLe(a, b) && KeyLe(b, c)
    ensures KeyLe(a, c)
  {
    if a.actionId == b.actionId == c.actionId {
      if a.record.role == b.record.role == c.record.role {
        LeTransitive(a.record.uri, b.record.uri, c.record.uri);
      } else if a.record.role != b.record.role && b.record.role != c.record.role {
        LeTransitive(a.record.role, b.record.role, c.record.role);
        LeTotal(a.record.role, b.record.role);
      }
    } else if a.actionId != b.actionId && b.actionId != c.actionId {
      LeTransitive(a.actionId, b.actionId, c.actionId);
      LeTotal(a.actionId, b.actionId);
    }
  }

  lemma OrdersArePreorders()
    ensures TotalPreorder(KeyLe) && TotalPreorder(FullLe)
  {
    forall a: ManifestEntry, b: ManifestEntry ensures (KeyLe(a, b) || KeyLe(b, a)) && (FullLe(a, b) || FullLe(b, a)) {
      KeyLeTotal(a, b);
    }
    forall a: ManifestEntry, b: ManifestEntry, c: ManifestEntry | KeyLe(a, b) && KeyLe(b, c) ensures KeyLe(a, c) {
      KeyLeTransitive(a, b, c);
    }
    forall a: ManifestEntry, b: ManifestEntry, c: ManifestEntry | FullLe(a, b) && FullLe(b, c) ensures FullLe(a, c) {
      FullLeTransitive(a, b, c);
    }
  }

  lemma FullLeTransitive(a: ManifestEntry, b: ManifestEntry, c: ManifestEntry)
    requires FullLe(a, b) && FullLe(b, c)
    ensures FullLe(a, c)
  {
    FullIsKey(a, b);
    FullIsKey(b, c);
    KeyLeTransitive(a, b, c);
    if SameKey(a, c) && !SameKey(a, b) {
      KeyLeTotal(a, b);
    }
  }

  lemma FullIsKey(a: ManifestEntry, b: ManifestEntry)
    requires FullLe(a, b)
    ensures KeyLe(a, b)
  {
    KeyLeTotal(a, b);
  }

  predicate Holds(entries: seq<ManifestEntry>, e: ManifestEntry) {
    exists i :: 0 <= i < |entries| && SameIdentity(entries[i], e)
  }

  /** Appending unless the identity is known, then sorting by key. */
  function Added(entries: seq<ManifestEntry>, e: ManifestEntry): seq<ManifestEntry> {
    StableSort(KeyLe, if Holds(entries, e) then entries else entries + [e])
  }

  lemma {:induction false} KeyInsertIsFullInsert(entries: seq<ManifestEntry>, e: ManifestEntry)
    requires forall i :: 0 <= i < |entries| && entries[i].actionId == e.actionId ==> entries[i].attempt <= e.attempt
    ensures InsertLast(KeyLe, entries, e) == InsertLast(FullLe, entries, e)
  {
    if entries != [] {
      var last := entries[|entries| - 1];
      LeTotal(last.record.uri, last.record.uri);
      assert KeyLe(last, e) <==> FullLe(last, e);
      KeyInsertIsFullInsert(entries[..|entries| - 1], e);
    }
  }

  lemma FullSortedIsKeySorted(entries: seq<ManifestEntry>)
    requires Sorted(FullLe, entries)
    ensures Sorted(KeyLe, entries)
  {
    forall i, j | 0 <= i < j < |entries| ensures KeyLe(entries[i], entries[j]) {
      FullIsKey(entries[i], entries[j]);
    }
  }

  /** Adding an entry of the latest attempt of its action keeps a manifest sorted and free of duplicates. */
  lemma AddKeepsWellOrdered(entries: seq<ManifestEntry>, e: ManifestEntry)
    requires WellOrdered(entries)
    requires forall i :: 0 <= i < |entries| && entries[i].actionId == e.actionId ==> entries[i].attempt <= e.attempt
    ensures WellOrdered(Added(entries, e)) && Holds(Added(entries, e), e)
    ensures Permutation(Added(entries, e), if Holds(entries, e) then entries else entries + [e])
  {
    OrdersArePreorders();
    FullSortedIsKeySorted(entries);
    if Holds(entries, e) {
      SortOfSorted(KeyLe, entries);
    } else {
      SortAfterAppend(KeyLe, entries, e);
      KeyInsertIsFullInsert(entries, e);
      InsertSorts(FullLe, entries, e);
      InsertPermutes(KeyLe, entries, e);
      PermutedIdentities(entries + [e], Added(entries, e));
      PermutationMembers(Added(entries, e), entries + [e]);
      assert e in entries + [e];
      assert e in Added(entries, e);
    }
  }

  lemma PermutedIdentities(s: seq<ManifestEntry>, t: seq<ManifestEntry>)
    requires UniqueIdentities(s) && Permutation(t, s)
    ensures UniqueIdentities(t)
  {
    assert NoRepeats(s);
    PermutationKeepsNoRepeats(s, t);
    PermutationMembers(t, s);
    forall i, j | 0 <= i < j < |t| ensures !SameIdentity(t[i], t[j]) {
      assert t[i] in t && t[j] in t;
      var k :| 0 <= k < |s| && s[k] == t[i];
      var l :| 0 <= l < |s| && s[l] == t[j];
      assert k != l;
    }
  }

  /** Adding loses no entry, and brings in at most the one that is added. */
  lemma AddedMembers(entries: seq<ManifestEntry>, e: ManifestEntry)
    ensures forall x :: x in Added(entries, e) <==> x in entries || (x == e && !Holds(entries, e))
  {
    var source := if Holds(entries, e) then entries else entries + [e];
    SortPermutes(KeyLe, source);
    PermutationMembers(Added(entries, e), source);
  }

  /** Entries are only ever added, so what was listed stays listed. */
  lemma AddKeepsHolds(entries: seq<ManifestEntry>, e: ManifestEntry, x: ManifestEntry)
    requires Holds(entries, x)
    ensures Holds(Added(entries, e), x)
  {
    AddedMembers(entries, e);
    var i :| 0 <= i < |entries| && SameIdentity(entries[i], x);
    assert entries[i] in entries;
    var j :| 0 <= j < |Added(entries, e)| && Added(entries, e)[j] == entries[i];
    assert SameIdentity(Added(entries, e)[j], x);
  }

  lemma AddedHolds(entries: seq<ManifestEntry>, e: ManifestEntry)
    ensures Holds(Added(entries, e), e)
  {
    if Holds(entries, e) {
      AddKeepsHolds(entries, e, e);
    } else {
      AddedMembers(entries, e);
      assert e in Added(entries, e);
      var j :| 0 <= j < |Added(entries, e)| && Added(entries, e)[j] == e;
      assert SameIdentity(Added(entries, e)[j], e);
    }
  }

  /** What a manifest holds is an entry with the same uri and role, of the same action and attempt. */
  lemma HoldsIff(entries: seq<ManifestEntry>, e: ManifestEntry)
    ensures Holds(entries, e) <==>
              exists x :: && x in entries && x.record.uri == e.record.uri && x.record.role == e.record.role
                          && x.actionId == e.actionId && x.attempt == e.attempt
  {
    if x :| && x in entries && x.record.uri == e.record.uri && x.record.role == e.record.role
            && x.actionId == e.actionId && x.attempt == e.attempt {
      var i :| 0 <= i < |entries| && entries[i] == x;
      assert SameIdentity(entries[i], e);
    }
  }

  /** The order of a manifest: action, then role, then uri in code-point order, then attempt, and no two alike. */
  lemma OrderedByFields(entries: seq<ManifestEntry>, i: nat, j: nat)
    requires WellOrdered(entries) && i < j < |entries|
    ensures var a, b := entries[i], entries[j];
            && (a.actionId == b.actionId || Before(a.actionId, b.actionId))
            && (a.actionId == b.actionId ==> a.record.role == b.record.role || Before(a.record.role, b.record.role))
            && (a.actionId == b.actionId && a.record.role == b.record.role ==>
                  a.record.uri == b.record.uri || Before(a.record.uri, b.record.uri))
            && (a.actionId == b.actionId && a.record.role == b.record.role && a.record.uri == b.record.uri ==>
                  a.attempt < b.attempt)
  {
    var a, b := entries[i], entries[j];
    LeIsCodePointOrder(a.actionId, b.actionId);
    LeIsCodePointOrder(a.record.role, b.record.role);
    LeIsCodePointOrder(a.record.uri, b.record.uri);
  }
}
