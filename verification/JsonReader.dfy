/**
 A reader of JSON texts as RFC 8259 describes them, blanks between tokens included, and the proof that it reads
 back what the canonical writer writes.  How a numeral is read is a parameter.
 */
module JsonReader {
  import opened Wrappers
  import opened Json
  import opened Strings
  import opened CanonicalJson

  // ---------- strings (section 7) ----------

  function HexValue(c: char): Option<nat> {
    if '0' <= c <= '9' then Some(c as int - '0' as int)
    else if 'a' <= c <= 'f' then Some(c as int - 'a' as int + 10)
    else if 'A' <= c <= 'F' then Some(c as int - 'A' as int + 10)
    else None
  }

  /** Four hexadecimal digits; `None` if there are not four, or if they are half of a surrogate pair. */
  function CodePoint(s: string): Option<char> {
    if |s| < 4 || exists i :: 0 <= i < 4 && HexValue(s[i]).None? then None
    else
      var code := 4096 * HexValue(s[0]).value + 256 * HexValue(s[1]).value + 16 * HexValue(s[2]).value
        + HexValue(s[3]).value;
      if code < 0xD800 || 0xE000 <= code < 0x10000 then Some(code as char) else None
  }

  /** What a character after a backslash stands for. */
  function Escape(c: char): Option<char> {
    match c
    case '\"' => Some('\"')
    case '\\' => Some('\\')
    case '/' => Some('/')
    case 'b' => Some('\U{8}')
    case 'f' => Some('\U{C}')
    case 'n' => Some('\n')
    case 'r' => Some('\r')
    case 't' => Some('\t')
    case _ => None
  }

  /** One character of a string, and what is left. */
  function ReadChar(s: string): (r: Option<(char, string)>)
    ensures r.Some? ==> |r.value.1| < |s|
  {
    if s == "" || s[0] == '\"' || s[0] < ' ' then None
    else if s[0] != '\\' then Some((s[0], s[1..]))
    else if |s| >= 2 && Escape(s[1]).Some? then Some((Escape(s[1]).value, s[2..]))
    else if |s| >= 2 && s[1] == 'u' && CodePoint(s[2..]).Some? then Some((CodePoint(s[2..]).value, s[6..]))
    else None
  }

  /** A string up to its closing quote, and what is left. */
  function ReadString(s: string): (r: Option<(string, string)>)
    ensures r.Some? ==> |r.value.1| < |s|
    decreases |s|
  {
    if s != "" && s[0] == '\"' then Some(("", s[1..]))
    else if ReadChar(s).None? then None
    else
      var rest := ReadString(ReadChar(s).value.1);
      if rest.None? then None else Some(([ReadChar(s).value.0] + rest.value.0, rest.value.1))
  }

  // ---------- values (sections 3 to 6) ----------

  predicate InNumeral(c: char) {
    '0' <= c <= '9' || c in {'+', '-', '.', 'e', 'E'}
  }

  function NumeralLength(s: string): (n: nat)
    ensures n <= |s|
  {
    if s == "" || !InNumeral(s[0]) then 0 else 1 + NumeralLength(s[1..])
  }

  /** The blanks that may stand between tokens (section 2). */
  function Skip(s: string): (r: string)
    ensures |r| <= |s|
  {
    if s != "" && s[0] in " \t\n\r" then Skip(s[1..]) else s
  }

  /** Of members with the same key the last one counts. */
  function FieldsOf(members: seq<(string, Json)>): Fields {
    if members == [] then map[]
    else
      var last := members[|members| - 1];
      FieldsOf(members[..|members| - 1])[last.0 := last.1]
  }

  /** One value, and what is left. */
  function ReadValue(text: string, value: string -> real): (r: Option<(Json, string)>)
    ensures r.Some? ==> |r.value.1| < |text|
    decreases |text|, 0
  {
    var s := Skip(text);
    if "null" <= s then Some((Null, s[4..]))
    else if "true" <= s then Some((Bool(true), s[4..]))
    else if "false" <= s then Some((Bool(false), s[5..]))
    else if s == "" then None
    else if s[0] == '\"' then
      var found := ReadString(s[1..]);
      if found.None? then None else Some((Str(found.value.0), found.value.1))
    else if s[0] == '[' then
      if "]" <= Skip(s[1..]) then Some((List([]), Skip(s[1..])[1..]))
      else
        var items := ReadItems(s[1..], value);
        if items.None? then None else Some((List(items.value.0), items.value.1))
    else if s[0] == '{' then
      if "}" <= Skip(s[1..]) then Some((Map(map[]), Skip(s[1..])[1..]))
      else
        var members := ReadMembers(s[1..], value);
        if members.None? then None else Some((Map(FieldsOf(members.value.0)), members.value.1))
    else if NumeralLength(s) > 0 then Some((Num(value(s[..NumeralLength(s)])), s[NumeralLength(s)..]))
    else None
  }

  /** The items of a list up to its closing bracket. */
  function ReadItems(s: string, value: string -> real): (r: Option<(seq<Json>, string)>)
    ensures r.Some? ==> |r.value.1| < |s|
    decreases |s|, 1
  {
    var first := ReadValue(s, value);
    if first.None? then None
    else
      var rest := Skip(first.value.1);
      if "]" <= rest then Some(([first.value.0], rest[1..]))
      else if !("," <= rest) then None
      else
        var more := ReadItems(rest[1..], value);
        if more.None? then None else Some(([first.value.0] + more.value.0, more.value.1))
  }

  /** A key with its value. */
  function ReadMember(text: string, value: string -> real): (r: Option<((string, Json), string)>)
    ensures r.Some? ==> |r.value.1| < |text|
    decreases |text|, 1
  {
    var s := Skip(text);
    if !("\"" <= s) then None
    else
      var key := ReadString(s[1..]);
      if key.None? || !(":" <= Skip(key.value.1)) then None
      else
        var found := ReadValue(Skip(key.value.1)[1..], value);
        if found.None? then None else Some(((key.value.0, found.value.0), found.value.1))
  }

  /** The members of a mapping up to its closing brace. */
  function ReadMembers(s: string, value: string -> real): (r: Option<(seq<(string, Json)>, string)>)
    ensures r.Some? ==> |r.value.1| < |s|
    decreases |s|, 2
  {
    var first := ReadMember(s, value);
    if first.None? then None
    else
      var rest := Skip(first.value.1);
      if "}" <= rest then Some(([first.value.0], rest[1..]))
      else if !("," <= rest) then None
      else
        var more := ReadMembers(rest[1..], value);
        if more.None? then None else Some(([first.value.0] + more.value.0, more.value.1))
  }

  /** A whole text. */
  function ReadText(s: string, value: string -> real): Option<Json> {
    var r := ReadValue(s, value);
    if r.Some? && Skip(r.value.1) == "" then Some(r.value.0) else None
  }

  // ---------- what is written is read back ----------

  /** Numbers are read as they are written. */
  ghost predicate ReadsNumbers(number: real -> string, value: string -> real, floats: iset<real>) {
    forall r {:trigger number(r)} :: r in floats ==> value(number(r)) == r
  }

  /** Numbers are written as numerals of their own, and read as they are written. */
  ghost predicate Numerals(number: real -> string, value: string -> real, floats: iset<real>) {
    NumbersOk(number, floats) && ReadsNumbers(number, value, floats)
  }

  lemma HexRead(n: nat)
    requires n < 16
    ensures HexValue(HexDigit(n)) == Some(n) && HexValue("0123456789ABCDEF"[n]) == Some(n)
  {
  }

  /** Four digits are read as a number to the base sixteen. */
  lemma CodePointOf(a: nat, b: nat, c: nat, d: nat, n: nat)
    requires a < 16 && b < 16 && c < 16 && d < 16 && n == 4096 * a + 256 * b + 16 * c + d
    ensures CodePoint([HexDigit(a), HexDigit(b), HexDigit(c), HexDigit(d)])
            == if 0xD800 <= n < 0xE000 then None else Some(n as char)
  {
    HexRead(a);
    HexRead(b);
    HexRead(c);
    HexRead(d);
    var s := [HexDigit(a), HexDigit(b), HexDigit(c), HexDigit(d)];
    forall i | 0 <= i < 4 ensures HexValue(s[i]).Some? {
    }
  }

  lemma ControlRead(c: char, u: string)
    requires c < ' '
    ensures CodePoint(['0', '0', HexDigit(c as int / 16), HexDigit(c as int % 16)] + u) == Some(c)
  {
    HexRead(c as int / 16);
    HexRead(c as int % 16);
    var s := ['0', '0', HexDigit(c as int / 16), HexDigit(c as int % 16)] + u;
    forall i | 0 <= i < 4 ensures HexValue(s[i]).Some? {
      assert s[i] == ['0', '0', HexDigit(c as int / 16), HexDigit(c as int % 16)][i];
    }
  }

  lemma EscapedCharRead(c: char, u: string)
    ensures ReadChar(EscapedChar(c) + u) == Some((c, u))
  {
    var s := EscapedChar(c) + u;
    assert s[0] == EscapedChar(c)[0];
    if Shorthand(c) != ' ' {
      assert s[1] == Shorthand(c) && s[2..] == u;
    } else if c < ' ' {
      ControlRead(c, u);
      assert s[2..] == ['0', '0', HexDigit(c as int / 16), HexDigit(c as int % 16)] + u;
      assert s[1] == 'u' && s[6..] == u;
    } else {
      assert s[1..] == u;
    }
  }

  lemma {:induction false} EscapedTextRead(s: string, x: string)
    ensures ReadString(EscapedText(s) + ("\"" + x)) == Some((s, x))
  {
    if s == "" {
      assert EscapedText(s) + ("\"" + x) == "\"" + x;
    } else {
      var rest := EscapedText(s[1..]) + ("\"" + x);
      EscapedStep(s, "\"" + x);
      EscapedCharRead(s[0], rest);
      EscapedTextRead(s[1..], x);
      assert s == [s[0]] + s[1..];
      assert (EscapedChar(s[0]) + rest)[0] == EscapedChar(s[0])[0];
    }
  }

  lemma {:induction false} NumeralRead(p: string, x: string)
    requires forall i :: 0 <= i < |p| ==> p[i] in "0123456789+-.e"
    requires Ends(x)
    ensures NumeralLength(p + x) == |p|
  {
    if p == [] {
      assert p + x == x;
    } else {
      assert (p + x)[0] == p[0] && (p + x)[1..] == p[1..] + x;
      NumeralRead(p[1..], x);
    }
  }

  lemma NumberRead(r: real, x: string, number: real -> string, value: string -> real, floats: iset<real>)
    requires Numerals(number, value, floats) && r in floats && Ends(x)
    ensures ReadValue(number(r) + x, value) == Some((Num(r), x))
  {
    var p := number(r);
    var s := p + x;
    NumeralRead(p, x);
    assert IsNumeral(p) && s[0] == p[0];
    assert s[..|p|] == p && s[|p|..] == x;
  }

  lemma WordRead(word: string, x: string, value: string -> real)
    requires word in {"null", "true", "false"}
    ensures ReadValue(word + x, value)
            == Some((match word case "null" => Null case "true" => Bool(true) case _ => Bool(false), x))
  {
    var s := word + x;
    assert word <= s && s[|word|..] == x && s[0] == word[0];
  }

  lemma QuotedRead(text: string, x: string, value: string -> real)
    ensures ReadString((Quoted(text) + x)[1..]) == Some((text, x))
    ensures ReadValue(Quoted(text) + x, value) == Some((Str(text), x))
  {
    var s := Quoted(text) + x;
    assert s == "\"" + (EscapedText(text) + ("\"" + x));
    assert s[0] == '\"' && s[1..] == EscapedText(text) + ("\"" + x);
    EscapedTextRead(text, x);
  }

  /** What is written is read back, whatever follows; after a number, something must follow that cannot continue it. */
  lemma {:induction false} WrittenIsRead(j: Json, x: string, number: real -> string, value: string -> real,
                                         floats: iset<real>)
    requires Numerals(number, value, floats) && Over(j, floats)
    requires j.Num? ==> Ends(x)
    ensures ReadValue(Text(j, number) + x, value) == Some((j, x))
    decreases j, 2, 0
  {
    match j
    case Null =>
      WordRead("null", x, value);
    case Bool(b) =>
      WordRead(if b then "true" else "false", x, value);
    case Num(r) =>
      NumberRead(r, x, number, value, floats);
    case Str(text) =>
      QuotedRead(text, x, value);
    case List(_) =>
      ListRead(j, x, number, value, floats);
    case Map(_) =>
      MapRead(j, x, number, value, floats);
  }

  /** The first character tells how a value is read. */
  lemma ValueOf(text: string, s: string, value: string -> real)
    requires s == Skip(text) && s != ""
    ensures s[0] == '\"' ==>
              ReadValue(text, value)
              == (var t := ReadString(s[1..]); if t.None? then None else Some((Str(t.value.0), t.value.1)))
    ensures s[0] == '[' && "]" <= Skip(s[1..]) ==> ReadValue(text, value) == Some((List([]), Skip(s[1..])[1..]))
    ensures s[0] == '[' && !("]" <= Skip(s[1..])) ==>
              ReadValue(text, value)
              == (var t := ReadItems(s[1..], value); if t.None? then None else Some((List(t.value.0), t.value.1)))
    ensures s[0] == '{' && "}" <= Skip(s[1..]) ==> ReadValue(text, value) == Some((Map(map[]), Skip(s[1..])[1..]))
    ensures s[0] == '{' && !("}" <= Skip(s[1..])) ==>
              ReadValue(text, value)
              == (var t := ReadMembers(s[1..], value);
                  if t.None? then None else Some((Map(FieldsOf(t.value.0)), t.value.1)))
  {
  }

  lemma EmptyListRead(x: string, value: string -> real)
    ensures ReadValue("[" + ("]" + x), value) == Some((List([]), x))
  {
    assert ("[" + ("]" + x))[1..] == "]" + x && ("]" + x)[1..] == x;
  }

  lemma OpenedList(t: string, items: seq<Json>, x: string, value: string -> real)
    requires Skip(t) == t && !("]" <= t) && ReadItems(t, value) == Some((items, x))
    ensures ReadValue("[" + t, value) == Some((List(items), x))
  {
    var s := "[" + t;
    assert s[0] == '[' && s[1..] == t;
    ValueOf(s, s, value);
  }

  lemma OneItem(s: string, v: Json, t: string, items: seq<Json>, x: string, value: string -> real)
    ensures ReadValue(s, value) == Some((v, "]" + x)) ==> ReadItems(s, value) == Some(([v], x))
    ensures ReadValue(s, value) == Some((v, "," + t)) && ReadItems(t, value) == Some((items, x)) ==>
              ReadItems(s, value) == Some(([v] + items, x))
  {
    assert ("]" + x)[1..] == x && ("," + t)[1..] == t;
  }

  lemma TextStarts(j: Json, number: real -> string, floats: iset<real>, t: string, after: string)
    requires NumbersOk(number, floats) && Over(j, floats) && t == Text(j, number) + after
    ensures Skip(t) == t && !("]" <= t)
  {
    FirstOfText(j, number, floats);
    assert t[0] == Text(j, number)[0];
  }

  lemma ItemStarts(j: Json, x: string, number: real -> string)
    requires j.List? && j.items != []
    ensures Text(j, number) + x == "[" + ItemRest(j, 0, x, number)
  {
    ListTextSplit(j, x, number);
    ItemsSplit(j, 0, x, number);
    assert "" + ItemRest(j, 0, x, number) == ItemRest(j, 0, x, number);
  }

  lemma {:induction false} ListRead(j: Json, x: string, number: real -> string, value: string -> real,
                                    floats: iset<real>)
    requires Numerals(number, value, floats) && Over(j, floats) && j.List?
    ensures ReadValue(Text(j, number) + x, value) == Some((j, x))
    decreases j, 1, 0
  {
    if j.items == [] {
      ListTextSplit(j, x, number);
      EmptyListRead(x, value);
    } else {
      ItemStarts(j, x, number);
      TextStarts(j.items[0], number, floats, ItemRest(j, 0, x, number), ItemsText(j, 1, number) + x);
      ItemsRead(j, 0, x, number, value, floats);
      OpenedList(ItemRest(j, 0, x, number), j.items[0..], x, value);
      assert j.items[0..] == j.items;
    }
  }

  lemma {:induction false} ItemsRead(j: Json, i: nat, x: string, number: real -> string, value: string -> real,
                                     floats: iset<real>)
    requires Numerals(number, value, floats) && Over(j, floats)
    requires j.List? && i < |j.items|
    ensures ReadItems(ItemRest(j, i, x, number), value) == Some((j.items[i..], x))
    decreases j, 0, |j.items| - i
  {
    var v, rest := j.items[i], ItemsText(j, i + 1, number) + x;
    ItemsEnd(j, i + 1, x, number);
    WrittenIsRead(v, rest, number, value, floats);
    assert j.items[i..] == [v] + j.items[i + 1..];
    if i + 1 == |j.items| {
      assert rest == "]" + x && j.items[i..] == [v];
      OneItem(ItemRest(j, i, x, number), v, "", [], x, value);
    } else {
      ItemsSplit(j, i + 1, x, number);
      ItemsRead(j, i + 1, x, number, value, floats);
      OneItem(ItemRest(j, i, x, number), v, ItemRest(j, i + 1, x, number), j.items[i + 1..], x, value);
    }
  }

  lemma EmptyMapRead(x: string, value: string -> real)
    ensures ReadValue("{" + ("}" + x), value) == Some((Map(map[]), x))
  {
    assert ("{" + ("}" + x))[1..] == "}" + x && ("}" + x)[1..] == x;
  }

  lemma OpenedMap(t: string, members: seq<(string, Json)>, x: string, value: string -> real)
    requires Skip(t) == t && !("}" <= t) && ReadMembers(t, value) == Some((members, x))
    ensures ReadValue("{" + t, value) == Some((Map(FieldsOf(members)), x))
  {
    var s := "{" + t;
    assert s[0] == '{' && s[1..] == t;
    ValueOf(s, s, value);
  }

  lemma OneMember(s: string, m: (string, Json), t: string, members: seq<(string, Json)>, x: string,
                  value: string -> real)
    ensures ReadMember(s, value) == Some((m, "}" + x)) ==> ReadMembers(s, value) == Some(([m], x))
    ensures ReadMember(s, value) == Some((m, "," + t)) && ReadMembers(t, value) == Some((members, x)) ==>
              ReadMembers(s, value) == Some(([m] + members, x))
  {
    assert ("}" + x)[1..] == x && ("," + t)[1..] == t;
  }

  lemma KeyThenValue(key: string, t: string, v: Json, x: string, value: string -> real)
    requires ReadValue(t, value) == Some((v, x))
    ensures ReadMember(Quoted(key) + (":" + t), value) == Some(((key, v), x))
  {
    QuotedRead(key, ":" + t, value);
    assert (Quoted(key) + (":" + t))[0] == '\"';
    assert (":" + t)[1..] == t;
  }

  lemma MemberStarts(j: Json, keys: seq<string>, x: string, number: real -> string)
    requires j.Map? && keys == SortedKeys(j.fields.Keys) && keys != [] && forall k :: k in keys ==> k in j.fields
    ensures Skip(MemberRest(j, keys, x, number)) == MemberRest(j, keys, x, number)
    ensures !("}" <= MemberRest(j, keys, x, number))
    ensures Text(j, number) + x == "{" + MemberRest(j, keys, x, number)
  {
    var t := MemberRest(j, keys, x, number);
    assert t[0] == '\"';
    MapTextSplit(j, keys, x, number);
    MembersSplit(j, keys, true, x, number);
    assert "" + t == t;
  }

  lemma {:induction false} MapRead(j: Json, x: string, number: real -> string, value: string -> real,
                                   floats: iset<real>)
    requires Numerals(number, value, floats) && Over(j, floats) && j.Map?
    ensures ReadValue(Text(j, number) + x, value) == Some((j, x))
    decreases j, 1, 0
  {
    var keys := SortedKeys(j.fields.Keys);
    SortedKeysMembers(j.fields.Keys);
    if keys == [] {
      assert j.fields == map[];
      MapTextSplit(j, keys, x, number);
      EmptyMapRead(x, value);
    } else {
      MemberStarts(j, keys, x, number);
      MembersRead(j, keys, x, number, value, floats);
      OpenedMap(MemberRest(j, keys, x, number), MembersOf(j.fields, keys), x, value);
      AllMembers(j.fields, keys);
    }
  }

  /** The members of a mapping with these keys. */
  function MembersOf(fields: Fields, keys: seq<string>): seq<(string, Json)>
    requires forall k :: k in keys ==> k in fields
  {
    seq(|keys|, i requires 0 <= i < |keys| => assert keys[i] in keys; (keys[i], fields[keys[i]]))
  }

  lemma {:induction false} FieldsOfMembers(fields: Fields, keys: seq<string>)
    requires forall k :: k in keys ==> k in fields
    ensures FieldsOf(MembersOf(fields, keys)) == map k | k in keys :: fields[k]
  {
    if keys != [] {
      var front := keys[..|keys| - 1];
      FieldsOfMembers(fields, front);
      assert MembersOf(fields, keys)[..|keys| - 1] == MembersOf(fields, front);
      assert keys == front + [keys[|keys| - 1]];
    }
  }

  lemma AllMembers(fields: Fields, keys: seq<string>)
    requires forall k :: k in keys <==> k in fields
    ensures FieldsOf(MembersOf(fields, keys)) == fields
  {
    FieldsOfMembers(fields, keys);
  }

  lemma MembersStep(fields: Fields, keys: seq<string>)
    requires keys != [] && forall k :: k in keys ==> k in fields
    ensures MembersOf(fields, keys) == [(keys[0], fields[keys[0]])] + MembersOf(fields, keys[1..])
    ensures |keys| == 1 ==> MembersOf(fields, keys) == [(keys[0], fields[keys[0]])]
  {
    assert keys == [keys[0]] + keys[1..];
  }

  lemma {:induction false} MembersRead(j: Json, keys: seq<string>, x: string, number: real -> string,
                                       value: string -> real, floats: iset<real>)
    requires Numerals(number, value, floats) && Over(j, floats)
    requires j.Map? && keys != [] && forall k :: k in keys ==> k in j.fields
    ensures ReadMembers(MemberRest(j, keys, x, number), value) == Some((MembersOf(j.fields, keys), x))
    decreases j, 0, |keys|
  {
    var key, v, rest := keys[0], j.fields[keys[0]], MembersText(j, keys[1..], false, number) + x;
    MembersEnd(j, keys[1..], x, number);
    WrittenIsRead(v, rest, number, value, floats);
    KeyThenValue(key, ValueRest(j, keys, x, number), v, rest, value);
    MembersStep(j.fields, keys);
    if |keys| == 1 {
      assert rest == "}" + x;
      OneMember(MemberRest(j, keys, x, number), (key, v), "", [], x, value);
    } else {
      var t := MemberRest(j, keys[1..], x, number);
      MembersSplit(j, keys[1..], false, x, number);
      MembersRead(j, keys[1..], x, number, value, floats);
      OneMember(MemberRest(j, keys, x, number), (key, v), t, MembersOf(j.fields, keys[1..]), x, value);
    }
  }

  /** Reading the canonical text of a value gives the value. */
  lemma TextReadsBack(j: Json, number: real -> string, value: string -> real, floats: iset<real>)
    requires Numerals(number, value, floats) && Over(j, floats)
    ensures ReadText(Text(j, number), value) == Some(j)
  {
    TextReads(j, Text(j, number), number, value, floats);
  }

  // ---------- more text after what was read ----------

  lemma TailMore(s: string, y: string)
    requires s != ""
    ensures (s + y)[0] == s[0] && (s + y)[1..] == s[1..] + y
  {
  }

  lemma {:induction false} SkipMore(s: string, y: string)
    ensures Skip(s) != "" ==> Skip(s + y) == Skip(s) + y
  {
    if s != "" {
      TailMore(s, y);
      SkipMore(s[1..], y);
    }
  }

  lemma CharMore(s: string, y: string)
    requires ReadChar(s).Some?
    ensures ReadChar(s + y) == Some((ReadChar(s).value.0, ReadChar(s).value.1 + y))
  {
    var t := s + y;
    assert t[0] == s[0] && t[1..] == s[1..] + y;
    if s[0] == '\\' {
      assert t[1] == s[1] && t[2..] == s[2..] + y;
      if Escape(s[1]).None? {
        assert t[6..] == s[6..] + y;
        CodePointMore(s[2..], y);
      }
    }
  }

  lemma CodePointMore(s: string, y: string)
    requires CodePoint(s).Some?
    ensures CodePoint(s + y) == CodePoint(s)
  {
    assert forall i :: 0 <= i < 4 ==> (s + y)[i] == s[i];
  }

  lemma {:induction false} StringMore(s: string, y: string)
    requires ReadString(s).Some?
    ensures ReadString(s + y) == Some((ReadString(s).value.0, ReadString(s).value.1 + y))
    decreases |s|
  {
    assert (s + y)[0] == s[0];
    if s[0] == '\"' {
      assert (s + y)[1..] == s[1..] + y;
    } else {
      CharMore(s, y);
      StringMore(ReadChar(s).value.1, y);
    }
  }

  lemma {:induction false} NumeralMore(s: string, y: string)
    requires NumeralLength(s) < |s|
    ensures NumeralLength(s + y) == NumeralLength(s)
  {
    TailMore(s, y);
    if InNumeral(s[0]) {
      NumeralMore(s[1..], y);
    }
  }

  lemma NumberMore(s: string, y: string)
    requires s != "" && 0 < NumeralLength(s) < |s|
    ensures var n := NumeralLength(s);
            NumeralLength(s + y) == n && (s + y)[..n] == s[..n] && (s + y)[n..] == s[n..] + y
  {
    NumeralMore(s, y);
  }

  lemma WordsAndNumbersMore(text: string, s: string, y: string, value: string -> real)
    requires s == Skip(text) && s != "" && s[0] !in "\"[{" && Skip(text + y) == s + y
    requires ReadValue(text, value).Some?
    requires ReadValue(text, value).value.0.Num? ==> ReadValue(text, value).value.1 != ""
    ensures ReadValue(text + y, value) == Some((ReadValue(text, value).value.0, ReadValue(text, value).value.1 + y))
  {
    assert (s + y)[0] == s[0];
    if NumeralLength(s) > 0 {
      NumberMore(s, y);
    } else {
      assert (s + y)[4..] == s[4..] + y;
      if s[0] == 'f' { assert (s + y)[5..] == s[5..] + y; }
    }
  }

  /** Reading does not look beyond the value that it finds, unless that is a number at the end of the text. */
  lemma {:induction false} ValueMore(text: string, y: string, value: string -> real)
    requires ReadValue(text, value).Some?
    requires ReadValue(text, value).value.0.Num? ==> ReadValue(text, value).value.1 != ""
    ensures ReadValue(text + y, value) == Some((ReadValue(text, value).value.0, ReadValue(text, value).value.1 + y))
    decreases |text|, 0
  {
    var s := Skip(text);
    SkipMore(text, y);
    if s[0] !in "\"[{" {
      WordsAndNumbersMore(text, s, y, value);
    } else {
      TailMore(s, y);
      ValueOf(text, s, value);
      ValueOf(text + y, s + y, value);
      if s[0] == '\"' {
        StringMore(s[1..], y);
      } else if s[0] == '[' {
        ListMore(s[1..], y, value);
      } else {
        MapMore(s[1..], y, value);
      }
    }
  }

  lemma {:induction false} ListMore(s: string, y: string, value: string -> real)
    requires "]" <= Skip(s) || ReadItems(s, value).Some?
    ensures "]" <= Skip(s) <==> "]" <= Skip(s + y)
    ensures "]" <= Skip(s) ==> Skip(s + y)[1..] == Skip(s)[1..] + y
    ensures !("]" <= Skip(s)) ==>
              ReadItems(s + y, value) == Some((ReadItems(s, value).value.0, ReadItems(s, value).value.1 + y))
    decreases |s|, 2
  {
    assert Skip(s) != "" by {
      if !("]" <= Skip(s)) { assert ReadValue(s, value).Some?; }
    }
    SkipMore(s, y);
    assert (Skip(s) + y)[0] == Skip(s)[0];
    if !("]" <= Skip(s)) {
      ItemsMore(s, y, value);
    }
  }

  lemma {:induction false} MapMore(s: string, y: string, value: string -> real)
    requires "}" <= Skip(s) || ReadMembers(s, value).Some?
    ensures "}" <= Skip(s) <==> "}" <= Skip(s + y)
    ensures "}" <= Skip(s) ==> Skip(s + y)[1..] == Skip(s)[1..] + y
    ensures !("}" <= Skip(s)) ==>
              ReadMembers(s + y, value) == Some((ReadMembers(s, value).value.0, ReadMembers(s, value).value.1 + y))
    decreases |s|, 3
  {
    assert Skip(s) != "" by {
      if !("}" <= Skip(s)) { assert ReadMember(s, value).Some?; }
    }
    SkipMore(s, y);
    assert (Skip(s) + y)[0] == Skip(s)[0];
    if !("}" <= Skip(s)) {
      MembersMore(s, y, ReadMembers(s, value).value.0, ReadMembers(s, value).value.1, value);
    }
  }

  lemma {:induction false} ItemsMore(s: string, y: string, value: string -> real)
    requires ReadItems(s, value).Some?
    ensures ReadItems(s + y, value) == Some((ReadItems(s, value).value.0, ReadItems(s, value).value.1 + y))
    decreases |s|, 1
  {
    var first := ReadValue(s, value).value;
    var rest := Skip(first.1);
    ValueMore(s, y, value);
    SkipMore(first.1, y);
    TailMore(rest, y);
    if !("]" <= rest) {
      ItemsMore(rest[1..], y, value);
    }
  }

  lemma {:induction false} MemberMore(text: string, y: string, value: string -> real)
    requires ReadMember(text, value).Some?
    requires ReadMember(text, value).value.0.1.Num? ==> ReadMember(text, value).value.1 != ""
    ensures ReadMember(text + y, value) == Some((ReadMember(text, value).value.0, ReadMember(text, value).value.1 + y))
    decreases |text|, 1
  {
    var s := Skip(text);
    SkipMore(text, y);
    TailMore(s, y);
    var rest := ReadString(s[1..]).value.1;
    StringMore(s[1..], y);
    SkipMore(rest, y);
    var after := Skip(rest);
    TailMore(after, y);
    ValueMore(after[1..], y, value);
  }

  lemma LastMember(s: string, m: (string, Json), after: string, u: string, value: string -> real)
    requires ReadMember(s, value) == Some((m, after)) && Skip(after) == "}" + u
    ensures ReadMembers(s, value) == Some(([m], u))
  {
    assert ("}" + u)[1..] == u;
  }

  lemma NextMember(s: string, m: (string, Json), after: string, u: string, members: seq<(string, Json)>, x: string,
                   value: string -> real)
    requires ReadMember(s, value) == Some((m, after)) && Skip(after) == "," + u
    requires ReadMembers(u, value) == Some((members, x))
    ensures ReadMembers(s, value) == Some(([m] + members, x))
  {
    var rest := Skip(after);
    assert rest[0] == ',' && rest[1..] == u;
    assert !("}" <= rest) && "," <= rest;
    assert ReadMembers(rest[1..], value) == Some((members, x));
  }

  /** Members are one member and then either the end or other members. */
  lemma MembersParts(s: string, value: string -> real)
    returns (m: (string, Json), after: string, u: string, more: Option<(seq<(string, Json)>, string)>)
    requires ReadMembers(s, value).Some?
    ensures ReadMember(s, value) == Some((m, after)) && Skip(after) == (if more.None? then "}" else ",") + u
    ensures more.None? ==> ReadMembers(s, value) == Some(([m], u))
    ensures more.Some? ==> ReadMembers(u, value) == more
                           && ReadMembers(s, value) == Some(([m] + more.value.0, more.value.1))
    ensures |u| < |s|
  {
    m, after := ReadMember(s, value).value.0, ReadMember(s, value).value.1;
    u := Skip(after)[1..];
    more := if "}" <= Skip(after) then None else ReadMembers(u, value);
    assert Skip(after) == Skip(after)[..1] + u;
  }

  lemma Grouped(a: string, b: string, c: string)
    ensures a + b + c == a + (b + c)
  {
  }

  lemma {:induction false} MembersMore(s: string, y: string, members: seq<(string, Json)>, x: string,
                                       value: string -> real)
    requires ReadMembers(s, value) == Some((members, x))
    ensures ReadMembers(s + y, value) == Some((members, x + y))
    decreases |s|, 2
  {
    var m, after, u, more := MembersParts(s, value);
    MemberMore(s, y, value);
    SkipMore(after, y);
    Grouped(if more.None? then "}" else ",", u, y);
    if more.None? {
      LastMember(s + y, m, after + y, u + y, value);
    } else {
      MembersMore(u, y, more.value.0, more.value.1, value);
      NextMember(s + y, m, after + y, u + y, more.value.0, more.value.1 + y, value);
    }
  }

  /** A canonical text that was cut short is no text of a mapping, in any spelling. */
  lemma NoMappingCutShort(line: string, j: Json, number: real -> string, value: string -> real, floats: iset<real>)
    requires Numerals(number, value, floats) && Over(j, floats)
    requires line < Text(j, number) && ReadText(line, value).Some?
    ensures !ReadText(line, value).value.Map?
  {
    var y := Text(j, number)[|line|..];
    assert Text(j, number) == line + y;
    TextReads(j, line + y, number, value, floats);
    var r := ReadValue(line, value).value;
    if r.0.Map? {
      ValueMore(line, y, value);
    }
  }

  lemma TextReads(j: Json, text: string, number: real -> string, value: string -> real, floats: iset<real>)
    requires Numerals(number, value, floats) && Over(j, floats)
    requires text == Text(j, number)
    ensures ReadValue(text, value) == Some((j, ""))
  {
    assert Text(j, number) + "" == Text(j, number);
    WrittenIsRead(j, "", number, value, floats);
  }
}
