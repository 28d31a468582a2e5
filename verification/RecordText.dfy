/**
 Ledger files as text: every record is written as the canonical text of a mapping on a line of its own,
 and read back by splitting the text into lines and parsing each of them.
 */
module RecordText {
  import opened Wrappers
  import opened Json
  import opened Strings
  import opened LedgerText
  import opened CanonicalJson
  import opened JsonReader

  function RecordLines(records: seq<Json>, number: real -> string): seq<string> {
    seq(|records|, i requires 0 <= i < |records| => Text(records[i], number))
  }

  /** The file that holds these records. */
  function FileOf(records: seq<Json>, number: real -> string): string {
    TextOf(RecordLines(records, number))
  }

  ghost predicate AreRecords(records: seq<Json>, floats: iset<real>) {
    forall i :: 0 <= i < |records| ==> records[i].Map? && Over(records[i], floats)
  }

  /** The line is the text of a mapping. */
  predicate Parses(line: string, value: string -> real) {
    ReadText(line, value).Some? && ReadText(line, value).value.Map?
  }

  /** The mappings that a reader of the file finds, or `None` if some line is not one. */
  function ReadRecords(text: string, value: string -> real): Option<seq<Json>> {
    var lines := ReadLines(text);
    if forall i :: 0 <= i < |lines| ==> Parses(lines[i], value) then
      Some(seq(|lines|, i requires 0 <= i < |lines| && Parses(lines[i], value) => ReadText(lines[i], value).value))
    else None
  }

  lemma TextParses(j: Json, number: real -> string, value: string -> real, floats: iset<real>)
    requires Numerals(number, value, floats) && j.Map? && Over(j, floats)
    ensures Parses(Text(j, number), value) && ReadText(Text(j, number), value) == Some(j)
    ensures !IsBlank(Text(j, number)) && !IsSpace(Text(j, number)[0])
  {
    TextReadsBack(j, number, value, floats);
    assert Text(j, number)[0] == '{';
  }

  lemma FreeRecordsReadBack(records: seq<Json>, number: real -> string, value: string -> real, floats: iset<real>)
    requires Numerals(number, value, floats) && AreRecords(records, floats)
    requires forall i :: 0 <= i < |records| ==> SeparatorFree(records[i])
    ensures ReadRecords(FileOf(records, number), value) == Some(records)
  {
    var lines := RecordLines(records, number);
    forall i | 0 <= i < |records|
      ensures IsClean(lines[i]) && !IsBlank(lines[i]) && Parses(lines[i], value)
      ensures ReadText(lines[i], value).value == records[i]
    {
      TextCleanIff(records[i], number, floats);
      TextParses(records[i], number, value, floats);
    }
    ReadsBackIff(lines);
    assert ReadLines(FileOf(records, number)) == lines;
    var read := ReadRecords(FileOf(records, number), value);
    assert read.Some? && |read.value| == |records|;
    assert forall i :: 0 <= i < |records| ==> read.value[i] == records[i];
    assert read.value == records;
  }

  lemma FirstRecord(records: seq<Json>, number: real -> string)
    requires records != []
    ensures FileOf(records, number) == Text(records[0], number) + "\n" + FileOf(records[1..], number)
  {
    assert RecordLines(records, number)[1..] == RecordLines(records[1..], number);
  }

  lemma BrokenRecord(record: Json, rest: string, number: real -> string, value: string -> real, floats: iset<real>)
    returns (line: string)
    requires Numerals(number, value, floats) && record.Map? && Over(record, floats) && !SeparatorFree(record)
    ensures line in ReadLines(Text(record, number) + "\n" + rest) && !Parses(line, value)
  {
    TextCleanIff(record, number, floats);
    TextParses(record, number, value, floats);
    line := BrokenFirstLine(Text(record, number), rest);
    if Parses(line, value) {
      NoMappingCutShort(line, record, number, value, floats);
      assert false;
    }
  }

  lemma CleanRecord(record: Json, rest: string, number: real -> string, value: string -> real, floats: iset<real>)
    requires Numerals(number, value, floats) && record.Map? && Over(record, floats) && SeparatorFree(record)
    ensures ReadLines(Text(record, number) + "\n" + rest) == [Text(record, number)] + ReadLines(rest)
  {
    TextCleanIff(record, number, floats);
    TextParses(record, number, value, floats);
    FirstLine(Text(record, number), rest);
  }

  lemma {:induction false} BrokenRecordFails(records: seq<Json>, k: nat, number: real -> string, value: string -> real,
                                             floats: iset<real>)
    returns (line: string)
    requires Numerals(number, value, floats) && AreRecords(records, floats)
    requires k < |records| && !SeparatorFree(records[k])
    ensures line in ReadLines(FileOf(records, number)) && !Parses(line, value)
    decreases |records|
  {
    var rest := FileOf(records[1..], number);
    FirstRecord(records, number);
    if SeparatorFree(records[0]) {
      CleanRecord(records[0], rest, number, value, floats);
      line := BrokenRecordFails(records[1..], k - 1, number, value, floats);
    } else {
      line := BrokenRecord(records[0], rest, number, value, floats);
    }
  }

  /**
   The file reads back as written exactly if no string in any record has one of the three separators;
   otherwise some line of it is no mapping, and no reader gets past it.
   */
  lemma FileReadsBackIff(records: seq<Json>, number: real -> string, value: string -> real, floats: iset<real>)
    requires Numerals(number, value, floats) && AreRecords(records, floats)
    ensures ReadRecords(FileOf(records, number), value)
            == if forall i :: 0 <= i < |records| ==> SeparatorFree(records[i]) then Some(records) else None
  {
    if forall i :: 0 <= i < |records| ==> SeparatorFree(records[i]) {
      FreeRecordsReadBack(records, number, value, floats);
    } else {
      var k :| 0 <= k < |records| && !SeparatorFree(records[k]);
      var line := BrokenRecordFails(records, k, number, value, floats);
    }
  }

  /** A text in which nothing is escaped. */
  predicate IsVerbatim(s: string) {
    forall i :: 0 <= i < |s| ==> EscapedChar(s[i]) == [s[i]]
  }

  lemma {:induction false} VerbatimText(s: string)
    requires IsVerbatim(s)
    ensures EscapedText(s) == s
  {
    if s != [] {
      VerbatimText(s[1..]);
      assert s == [s[0]] + s[1..];
    }
  }

  lemma SingleMember(key: string, value: Json, number: real -> string)
    ensures Text(Map(map[key := value]), number) == "{" + (Quoted(key) + (":" + (Text(value, number) + "}")))
  {
    var j := Map(map[key := value]);
    assert j.fields.Keys == {key};
    assert Least({key}) == key && {key} - {key} == {};
    assert SortedKeys({key}) == [key] + SortedKeys({});
    assert [key][1..] == [];
    assert MembersText(j, [], false, number) == "}";
    assert "" + (Quoted(key) + (":" + (Text(value, number) + "}")))
      == Quoted(key) + (":" + (Text(value, number) + "}"));
  }

  lemma Unnested(k: string, s: string)
    ensures "{" + (("\"" + (k + "\"")) + (":" + (("\"" + (s + "\"")) + "}"))) == "{\"" + k + "\":\"" + s + "\"}"
  {
  }

  lemma MemberText(key: string, value: string, number: real -> string)
    requires IsVerbatim(key) && IsVerbatim(value)
    ensures Text(Map(map[key := Str(value)]), number) == "{\"" + key + "\":\"" + value + "\"}"
  {
    VerbatimText(key);
    VerbatimText(value);
    SingleMember(key, Str(value), number);
    Unnested(key, value);
  }

  lemma SeparatorsFail(record: Json, number: real -> string, value: string -> real, floats: iset<real>)
    requires Numerals(number, value, floats) && record.Map? && Over(record, floats) && !SeparatorFree(record)
    ensures ReadRecords(FileOf([record], number), value) == None
  {
    FileReadsBackIff([record], number, value, floats);
    assert [record][0] == record;
  }

  lemma SampleText(number: real -> string)
    ensures Text(Map(map["reason" := Str("a\U{2028}b")]), number) == "{\"" + "reason" + "\":\"" + "a\U{2028}b" + "\"}"
  {
    MemberText("reason", "a\U{2028}b", number);
  }

  /** A record whose line the reader takes for two, as a decision with this reason is. */
  lemma SeparatorBreaksLine(number: real -> string, value: string -> real, floats: iset<real>)
    requires Numerals(number, value, floats)
    ensures var record := Map(map["reason" := Str("a\U{2028}b")]);
            && Text(record, number) == "{\"" + "reason" + "\":\"" + "a\U{2028}b" + "\"}"
            && ReadRecords(FileOf([record], number), value) == None
  {
    var reason := "a\U{2028}b";
    var record := Map(map["reason" := Str(reason)]);
    SampleText(number);
    assert IsSeparator(reason[1]);
    assert record.fields["reason"] == Str(reason);
    SeparatorsFail(record, number, value, floats);
  }
}
