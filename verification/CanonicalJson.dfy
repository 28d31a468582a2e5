/**
 The canonical text of JSON values: keys in order, no blanks between tokens, and in strings only quotes,
 backslashes and control characters escaped.  How numbers are written is a parameter; `floats` are the
 numbers whose texts are known to be numerals of their own.
 */
module CanonicalJson {
  import opened Json
  import opened Strings
  import opened LedgerText

  // ---------- the text ----------

  function HexDigit(n: nat): char
    requires n < 16
  {
    "0123456789abcdef"[n]
  }

  /** What stands for a character after a backslash, a blank if nothing does. */
  function Shorthand(c: char): char {
    if c == '\"' || c == '\\' then c
    else if c == '\n' then 'n'
    else if c == '\r' then 'r'
    else if c == '\t' then 't'
    else if c == '\U{8}' then 'b'
    else if c == '\U{C}' then 'f'
    else ' '
  }

  /** One character inside a quoted string. */
  function EscapedChar(c: char): string {
    if Shorthand(c) != ' ' then ['\\', Shorthand(c)]
    else if c < ' ' then ['\\', 'u', '0', '0', HexDigit(c as int / 16), HexDigit(c as int % 16)]
    else [c]
  }

  function EscapedText(s: string): string {
    if s == [] then [] else EscapedChar(s[0]) + EscapedText(s[1..])
  }

  function Quoted(s: string): string {
    "\"" + (EscapedText(s) + "\"")
  }

  function Text(j: Json, number: real -> string): string
    decreases j, 1, 0
  {
    match j
    case Null => "null"
    case Bool(b) => if b then "true" else "false"
    case Num(r) => number(r)
    case Str(s) => Quoted(s)
    case List(items) => "[" + ItemsText(j, 0, number)
    case Map(fields) =>
      SortedKeysMembers(fields.Keys);
      "{" + MembersText(j, SortedKeys(fields.Keys), true, number)
  }

  /** The items from `i` on, with the closing bracket. */
  function ItemsText(j: Json, i: nat, number: real -> string): string
    requires j.List? && i <= |j.items|
    decreases j, 0, |j.items| - i
  {
    if i == |j.items| then "]"
    else (if i == 0 then "" else ",") + (Text(j.items[i], number) + ItemsText(j, i + 1, number))
  }

  /** The members with these keys, with the closing brace. */
  function MembersText(j: Json, keys: seq<string>, first: bool, number: real -> string): string
    requires j.Map? && forall k :: k in keys ==> k in j.fields
    decreases j, 0, |keys|
  {
    if keys == [] then "}"
    else (if first then "" else ",")
         + (Quoted(keys[0]) + (":" + (Text(j.fields[keys[0]], number) + MembersText(j, keys[1..], false, number))))
  }

  // ---------- numbers ----------

  predicate IsNumeral(s: string) {
    s != [] && forall i :: 0 <= i < |s| ==> s[i] in "0123456789+-.e"
  }

  ghost predicate NumbersOk(number: real -> string, floats: iset<real>) {
    && (forall r {:trigger number(r)} :: r in floats ==> IsNumeral(number(r)))
    && (forall r, q {:trigger number(r), number(q)} :: r in floats && q in floats && number(r) == number(q) ==> r == q)
  }

  /** All numbers in the value are floats. */
  ghost predicate Over(j: Json, floats: iset<real>) {
    match j
    case Num(r) => r in floats
    case List(items) => forall i :: 0 <= i < |items| ==> Over(items[i], floats)
    case Map(fields) => forall k :: k in fields ==> Over(fields[k], floats)
    case _ => true
  }

  // ---------- what the text leaves for the reader of lines ----------

  /** The characters that end lines for a reader and are not escaped. */
  predicate IsSeparator(c: char) {
    c == '\U{85}' || c == '\U{2028}' || c == '\U{2029}'
  }

  predicate Plain(s: string) {
    forall i :: 0 <= i < |s| ==> !IsSeparator(s[i])
  }

  /** No string and no key anywhere in the value has a separator. */
  predicate SeparatorFree(j: Json) {
    match j
    case Str(s) => Plain(s)
    case List(items) => forall i :: 0 <= i < |items| ==> SeparatorFree(items[i])
    case Map(fields) => forall k :: k in fields ==> Plain(k) && SeparatorFree(fields[k])
    case _ => true
  }

  lemma CleanConcat(a: string, b: string)
    ensures IsClean(a + b) <==> IsClean(a) && IsClean(b)
  {
    if IsClean(a + b) {
      forall i | 0 <= i < |a| ensures !IsBreak(a[i]) {
        assert a[i] == (a + b)[i];
      }
      forall i | 0 <= i < |b| ensures !IsBreak(b[i]) {
        assert b[i] == (a + b)[|a| + i];
      }
    }
  }

  lemma HexIsClean(n: nat)
    requires n < 16
    ensures !IsBreak(HexDigit(n))
  {
  }

  lemma EscapedCharClean(c: char)
    ensures IsClean(EscapedChar(c)) <==> !IsSeparator(c)
  {
    if IsSeparator(c) {
      assert EscapedChar(c)[0] == c;
    } else if Shorthand(c) == ' ' && c < ' ' {
      HexIsClean(c as int / 16);
      HexIsClean(c as int % 16);
    }
  }

  lemma {:induction false} EscapedTextClean(s: string)
    ensures IsClean(EscapedText(s)) <==> Plain(s)
  {
    if s != [] {
      EscapedTextClean(s[1..]);
      EscapedCharClean(s[0]);
      CleanConcat(EscapedChar(s[0]), EscapedText(s[1..]));
      assert s == [s[0]] + s[1..];
    }
  }

  /** A quoted string holds no line end exactly if the string has none of the three separators. */
  lemma QuotedClean(s: string)
    ensures IsClean(Quoted(s)) <==> Plain(s)
  {
    EscapedTextClean(s);
    CleanConcat(EscapedText(s), "\"");
    CleanConcat("\"", EscapedText(s) + "\"");
  }

  /** The text of a value is a single line exactly if no string or key in it, at any depth, has a separator. */
  lemma {:induction false} TextCleanIff(j: Json, number: real -> string, floats: iset<real>)
    requires NumbersOk(number, floats) && Over(j, floats)
    ensures IsClean(Text(j, number)) <==> SeparatorFree(j)
    decreases j, 2, 0
  {
    match j
    case Null =>
    case Bool(b) =>
    case Num(r) =>
      assert IsNumeral(number(r));
    case Str(s) =>
      QuotedClean(s);
    case List(_) =>
      ItemsCleanIff(j, 0, number, floats);
      CleanConcat("[", ItemsText(j, 0, number));
    case Map(_) =>
      MapCleanIff(j, number, floats);
  }

  lemma {:induction false} MapCleanIff(j: Json, number: real -> string, floats: iset<real>)
    requires NumbersOk(number, floats) && Over(j, floats) && j.Map?
    ensures IsClean(Text(j, number)) <==> SeparatorFree(j)
    decreases j, 1, 0
  {
    var keys := SortedKeys(j.fields.Keys);
    SortedKeysMembers(j.fields.Keys);
    MembersCleanIff(j, keys, true, number, floats);
    CleanConcat("{", MembersText(j, keys, true, number));
    assert forall k :: k in keys <==> k in j.fields;
  }

  lemma {:induction false} ItemsCleanIff(j: Json, i: nat, number: real -> string, floats: iset<real>)
    requires NumbersOk(number, floats) && Over(j, floats) && j.List? && i <= |j.items|
    ensures IsClean(ItemsText(j, i, number)) <==> forall k :: i <= k < |j.items| ==> SeparatorFree(j.items[k])
    decreases j, 0, |j.items| - i
  {
    if i < |j.items| {
      TextCleanIff(j.items[i], number, floats);
      ItemsCleanIff(j, i + 1, number, floats);
      CleanConcat(Text(j.items[i], number), ItemsText(j, i + 1, number));
      CleanConcat(if i == 0 then "" else ",", Text(j.items[i], number) + ItemsText(j, i + 1, number));
    }
  }

  lemma {:induction false} MembersCleanIff(j: Json, keys: seq<string>, first: bool, number: real -> string,
                                           floats: iset<real>)
    requires NumbersOk(number, floats) && Over(j, floats) && j.Map? && forall k :: k in keys ==> k in j.fields
    ensures IsClean(MembersText(j, keys, first, number)) <==>
            forall k :: k in keys ==> Plain(k) && SeparatorFree(j.fields[k])
    decreases j, 0, |keys|
  {
    if keys != [] {
      var key, rest := keys[0], MembersText(j, keys[1..], false, number);
      var value := Text(j.fields[key], number);
      TextCleanIff(j.fields[key], number, floats);
      MembersCleanIff(j, keys[1..], false, number, floats);
      QuotedClean(key);
      CleanConcat(value, rest);
      CleanConcat(":", value + rest);
      CleanConcat(Quoted(key), ":" + (value + rest));
      CleanConcat(if first then "" else ",", Quoted(key) + (":" + (value + rest)));
      assert keys == [key] + keys[1..];
    }
  }

  // ---------- the text determines the value ----------

  lemma Cancel(p: string, u: string, v: string)
    requires p + u == p + v
    ensures u == v
  {
    assert (p + u)[|p|..] == u && (p + v)[|p|..] == v;
  }

  lemma Heads(p: string, u: string, q: string, v: string)
    requires p + u == q + v && p != [] && q != []
    ensures p[0] == q[0]
  {
    assert (p + u)[0] == p[0] && (q + v)[0] == q[0];
  }

  lemma HexDetermines(m: nat, n: nat)
    requires m < 16 && n < 16 && HexDigit(m) == HexDigit(n)
    ensures m == n
  {
  }

  lemma SameHex(c: char, d: char)
    requires c < ' ' && d < ' '
    requires HexDigit(c as int / 16) == HexDigit(d as int / 16) && HexDigit(c as int % 16) == HexDigit(d as int % 16)
    ensures c == d
  {
    HexDetermines(c as int / 16, d as int / 16);
    HexDetermines(c as int % 16, d as int % 16);
    assert c as int == d as int;
  }

  /** The text of a character is told from its first characters. */
  lemma SameEscape(c: char, d: char)
    requires EscapedChar(c)[0] == EscapedChar(d)[0]
    requires |EscapedChar(c)| >= 2 && |EscapedChar(d)| >= 2 ==> EscapedChar(c)[1] == EscapedChar(d)[1]
    requires |EscapedChar(c)| == 6 && |EscapedChar(d)| == 6 ==>
               EscapedChar(c)[4] == EscapedChar(d)[4] && EscapedChar(c)[5] == EscapedChar(d)[5]
    ensures c == d
  {
    if |EscapedChar(c)| == 6 && |EscapedChar(d)| == 6 {
      SameHex(c, d);
    }
  }

  lemma EscapedCharDetermines(c: char, u: string, d: char, v: string)
    requires EscapedChar(c) + u == EscapedChar(d) + v
    ensures c == d && u == v
  {
    var p, q := EscapedChar(c), EscapedChar(d);
    forall i | 0 <= i < |p| && i < |q| ensures p[i] == q[i] {
      assert (p + u)[i] == p[i] && (q + v)[i] == q[i];
    }
    SameEscape(c, d);
    Cancel(p, u, v);
  }

  lemma EscapedStep(s: string, x: string)
    requires s != []
    ensures EscapedText(s) + x == EscapedChar(s[0]) + (EscapedText(s[1..]) + x)
    ensures EscapedChar(s[0]) != [] && EscapedChar(s[0])[0] != '\"'
  {
  }

  lemma {:induction false} EscapedTextDetermines(s: string, x: string, t: string, y: string)
    requires EscapedText(s) + ("\"" + x) == EscapedText(t) + ("\"" + y)
    ensures s == t && x == y
  {
    if s == [] && t == [] {
      assert "" + ("\"" + x) == "\"" + x && "" + ("\"" + y) == "\"" + y;
      Cancel("\"", x, y);
    } else if s == [] {
      EscapedStep(t, "\"" + y);
      Heads("\"", x, EscapedChar(t[0]), EscapedText(t[1..]) + ("\"" + y));
    } else if t == [] {
      EscapedStep(s, "\"" + x);
      Heads("\"", y, EscapedChar(s[0]), EscapedText(s[1..]) + ("\"" + x));
    } else {
      EscapedStep(s, "\"" + x);
      EscapedStep(t, "\"" + y);
      EscapedCharDetermines(s[0], EscapedText(s[1..]) + ("\"" + x), t[0], EscapedText(t[1..]) + ("\"" + y));
      EscapedTextDetermines(s[1..], x, t[1..], y);
      assert s == [s[0]] + s[1..] && t == [t[0]] + t[1..];
    }
  }

  lemma QuotedDetermines(s: string, x: string, t: string, y: string)
    requires Quoted(s) + x == Quoted(t) + y
    ensures s == t && x == y
  {
    assert Quoted(s) + x == "\"" + (EscapedText(s) + ("\"" + x));
    assert Quoted(t) + y == "\"" + (EscapedText(t) + ("\"" + y));
    Cancel("\"", EscapedText(s) + ("\"" + x), EscapedText(t) + ("\"" + y));
    EscapedTextDetermines(s, x, t, y);
  }

  /** Nothing follows, or what closes or continues a list or mapping. */
  predicate Ends(x: string) {
    x == [] || x[0] in ",]}"
  }

  lemma NumeralEnds(p: string, x: string, q: string, y: string)
    requires IsNumeral(q) && Ends(x) && p + x == q + y
    ensures |q| <= |p|
  {
    var whole := p + x;
    assert x != [] ==> whole[|p|] == x[0];
    forall i | 0 <= i < |q| ensures whole[i] in "0123456789+-.e" {
      assert (q + y)[i] == q[i];
    }
  }

  lemma NumeralDetermines(p: string, x: string, q: string, y: string)
    requires IsNumeral(p) && IsNumeral(q) && Ends(x) && Ends(y) && p + x == q + y
    ensures p == q && x == y
  {
    NumeralEnds(p, x, q, y);
    NumeralEnds(q, y, p, x);
    assert (p + x)[..|p|] == p && (q + y)[..|q|] == q;
    Cancel(p, x, y);
  }

  /** The first character of a text tells the kind of its value. */
  lemma FirstOfText(j: Json, number: real -> string, floats: iset<real>)
    requires NumbersOk(number, floats) && Over(j, floats)
    ensures var t := Text(j, number);
            && t != [] && t[0] !in ",]}"
            && (j.Null? <==> t[0] == 'n') && (j == Bool(true) <==> t[0] == 't') && (j == Bool(false) <==> t[0] == 'f')
            && (j.Num? <==> t[0] in "0123456789+-.e")
            && (j.Str? <==> t[0] == '\"') && (j.List? <==> t[0] == '[') && (j.Map? <==> t[0] == '{')
  {
    if j.Num? {
      assert IsNumeral(number(j.r));
    }
  }

  /**
   Where one text ends, the next thing begins: two values whose texts, followed by anything, agree are
   equal.  Only after a number must something follow that cannot continue it.
   */
  lemma {:induction false} TextDetermines(a: Json, x: string, b: Json, y: string, number: real -> string,
                                          floats: iset<real>)
    requires NumbersOk(number, floats) && Over(a, floats) && Over(b, floats)
    requires Text(a, number) + x == Text(b, number) + y
    requires a.Num? || b.Num? ==> Ends(x) && Ends(y)
    ensures a == b && x == y
    decreases a, 2, 0
  {
    FirstOfText(a, number, floats);
    FirstOfText(b, number, floats);
    Heads(Text(a, number), x, Text(b, number), y);
    match a
    case Null =>
      Cancel(Text(a, number), x, y);
    case Bool(_) =>
      Cancel(Text(a, number), x, y);
    case Num(r) =>
      NumeralDetermines(number(r), x, number(b.r), y);
    case Str(s) =>
      QuotedDetermines(s, x, b.s, y);
    case List(_) =>
      ListDetermines(a, x, b, y, number, floats);
    case Map(_) =>
      MapDetermines(a, x, b, y, number, floats);
  }

  lemma ListTextSplit(j: Json, x: string, number: real -> string)
    requires j.List?
    ensures Text(j, number) + x == "[" + (ItemsText(j, 0, number) + x)
  {
  }

  lemma MapTextSplit(j: Json, keys: seq<string>, x: string, number: real -> string)
    requires j.Map? && keys == SortedKeys(j.fields.Keys) && forall k :: k in keys ==> k in j.fields
    ensures Text(j, number) + x == "{" + (MembersText(j, keys, true, number) + x)
  {
  }

  lemma {:induction false} ListDetermines(a: Json, x: string, b: Json, y: string, number: real -> string,
                                          floats: iset<real>)
    requires NumbersOk(number, floats) && Over(a, floats) && Over(b, floats) && a.List? && b.List?
    requires Text(a, number) + x == Text(b, number) + y
    ensures a == b && x == y
    decreases a, 1, 0
  {
    ListTextSplit(a, x, number);
    ListTextSplit(b, y, number);
    Cancel("[", ItemsText(a, 0, number) + x, ItemsText(b, 0, number) + y);
    ItemsDetermine(a, x, b, y, 0, number, floats);
    assert a.items == a.items[0..] && b.items == b.items[0..];
  }

  lemma {:induction false} MapDetermines(a: Json, x: string, b: Json, y: string, number: real -> string,
                                         floats: iset<real>)
    requires NumbersOk(number, floats) && Over(a, floats) && Over(b, floats) && a.Map? && b.Map?
    requires Text(a, number) + x == Text(b, number) + y
    ensures a == b && x == y
    decreases a, 1, 0
  {
    var ka, kb := SortedKeys(a.fields.Keys), SortedKeys(b.fields.Keys);
    SortedKeysMembers(a.fields.Keys);
    SortedKeysMembers(b.fields.Keys);
    MapTextSplit(a, ka, x, number);
    MapTextSplit(b, kb, y, number);
    Cancel("{", MembersText(a, ka, true, number) + x, MembersText(b, kb, true, number) + y);
    MembersDetermine(a, ka, x, b, kb, y, true, number, floats);
    SameMembers(a.fields, b.fields);
  }

  lemma SameMembers(m: Fields, n: Fields)
    requires forall k :: k in SortedKeys(m.Keys) ==> k in m
    requires SortedKeys(m.Keys) == SortedKeys(n.Keys)
    requires forall k :: k in SortedKeys(m.Keys) && k in m && k in n ==> m[k] == n[k]
    ensures m == n
  {
    SortedKeysMembers(m.Keys);
    SortedKeysMembers(n.Keys);
    assert m.Keys == n.Keys;
  }

  lemma ItemsEnd(j: Json, i: nat, x: string, number: real -> string)
    requires j.List? && 0 < i <= |j.items|
    ensures Ends(ItemsText(j, i, number) + x)
  {
  }

  lemma MembersEnd(j: Json, keys: seq<string>, x: string, number: real -> string)
    requires j.Map? && forall k :: k in keys ==> k in j.fields
    ensures Ends(MembersText(j, keys, false, number) + x)
  {
  }

  /** What follows the opening bracket or a comma. */
  function ItemRest(j: Json, i: nat, x: string, number: real -> string): string
    requires j.List? && i < |j.items|
  {
    Text(j.items[i], number) + (ItemsText(j, i + 1, number) + x)
  }

  lemma ItemsSplit(j: Json, i: nat, x: string, number: real -> string)
    requires j.List? && i < |j.items|
    ensures ItemsText(j, i, number) + x == (if i == 0 then "" else ",") + ItemRest(j, i, x, number)
  {
  }

  lemma ClosedList(a: Json, x: string, b: Json, y: string, i: nat, number: real -> string, floats: iset<real>)
    requires NumbersOk(number, floats) && Over(b, floats) && a.List? && b.List? && i == |a.items| < |b.items|
    ensures ItemsText(a, i, number) + x != ItemsText(b, i, number) + y
  {
    ItemsSplit(b, i, y, number);
    FirstOfText(b.items[i], number, floats);
    assert (ItemsText(a, i, number) + x)[0] == ']';
    assert ItemRest(b, i, y, number)[0] == Text(b.items[i], number)[0];
  }

  lemma {:induction false} ItemsDetermine(a: Json, x: string, b: Json, y: string, i: nat,
                                          number: real -> string, floats: iset<real>)
    requires NumbersOk(number, floats) && Over(a, floats) && Over(b, floats)
    requires a.List? && b.List? && i <= |a.items| && i <= |b.items|
    requires ItemsText(a, i, number) + x == ItemsText(b, i, number) + y
    ensures a.items[i..] == b.items[i..] && x == y
    decreases a, 0, |a.items| - i
  {
    if i == |a.items| && i == |b.items| {
      Cancel("]", x, y);
    } else if i == |a.items| {
      ClosedList(a, x, b, y, i, number, floats);
    } else if i == |b.items| {
      ClosedList(b, y, a, x, i, number, floats);
    } else {
      ItemsSplit(a, i, x, number);
      ItemsSplit(b, i, y, number);
      Cancel(if i == 0 then "" else ",", ItemRest(a, i, x, number), ItemRest(b, i, y, number));
      ItemsEnd(a, i + 1, x, number);
      ItemsEnd(b, i + 1, y, number);
      TextDetermines(a.items[i], ItemsText(a, i + 1, number) + x,
                     b.items[i], ItemsText(b, i + 1, number) + y, number, floats);
      ItemsDetermine(a, x, b, y, i + 1, number, floats);
      assert a.items[i..] == [a.items[i]] + a.items[i + 1..] && b.items[i..] == [b.items[i]] + b.items[i + 1..];
    }
  }

  /** What follows a key, and what follows the opening brace or a comma. */
  function ValueRest(j: Json, keys: seq<string>, x: string, number: real -> string): string
    requires j.Map? && keys != [] && forall k :: k in keys ==> k in j.fields
  {
    Text(j.fields[keys[0]], number) + (MembersText(j, keys[1..], false, number) + x)
  }

  function MemberRest(j: Json, keys: seq<string>, x: string, number: real -> string): string
    requires j.Map? && keys != [] && forall k :: k in keys ==> k in j.fields
  {
    Quoted(keys[0]) + (":" + ValueRest(j, keys, x, number))
  }

  lemma MembersSplit(j: Json, keys: seq<string>, first: bool, x: string, number: real -> string)
    requires j.Map? && keys != [] && forall k :: k in keys ==> k in j.fields
    ensures MembersText(j, keys, first, number) + x == (if first then "" else ",") + MemberRest(j, keys, x, number)
  {
    var rest, value := MembersText(j, keys[1..], false, number), Text(j.fields[keys[0]], number);
    assert value + rest + x == value + (rest + x);
    assert ":" + (value + rest) + x == ":" + (value + rest + x);
    assert Quoted(keys[0]) + (":" + (value + rest)) + x == Quoted(keys[0]) + (":" + (value + rest) + x);
  }

  lemma ClosedMap(a: Json, x: string, b: Json, keys: seq<string>, y: string, first: bool, number: real -> string)
    requires a.Map? && b.Map? && keys != [] && forall k :: k in keys ==> k in b.fields
    ensures MembersText(a, [], first, number) + x != MembersText(b, keys, first, number) + y
  {
    MembersSplit(b, keys, first, y, number);
    assert (MembersText(a, [], first, number) + x)[0] == '}';
    assert MemberRest(b, keys, y, number)[0] == '\"';
  }

  lemma KeysDetermine(a: Json, ka: seq<string>, x: string, b: Json, kb: seq<string>, y: string, first: bool,
                      number: real -> string)
    requires a.Map? && b.Map? && ka != [] && kb != []
    requires (forall k :: k in ka ==> k in a.fields) && (forall k :: k in kb ==> k in b.fields)
    requires MembersText(a, ka, first, number) + x == MembersText(b, kb, first, number) + y
    ensures ka[0] == kb[0] && ValueRest(a, ka, x, number) == ValueRest(b, kb, y, number)
  {
    MembersSplit(a, ka, first, x, number);
    MembersSplit(b, kb, first, y, number);
    Cancel(if first then "" else ",", MemberRest(a, ka, x, number), MemberRest(b, kb, y, number));
    QuotedDetermines(ka[0], ":" + ValueRest(a, ka, x, number), kb[0], ":" + ValueRest(b, kb, y, number));
    Cancel(":", ValueRest(a, ka, x, number), ValueRest(b, kb, y, number));
  }

  lemma {:induction false} MembersDetermine(a: Json, ka: seq<string>, x: string, b: Json, kb: seq<string>, y: string,
                                            first: bool, number: real -> string, floats: iset<real>)
    requires NumbersOk(number, floats) && Over(a, floats) && Over(b, floats) && a.Map? && b.Map?
    requires (forall k :: k in ka ==> k in a.fields) && (forall k :: k in kb ==> k in b.fields)
    requires MembersText(a, ka, first, number) + x == MembersText(b, kb, first, number) + y
    ensures ka == kb && x == y
    ensures forall k :: k in ka && k in kb ==> a.fields[k] == b.fields[k]
    decreases a, 0, |ka|
  {
    if ka == [] && kb == [] {
      Cancel("}", x, y);
    } else if ka == [] {
      ClosedMap(a, x, b, kb, y, first, number);
    } else if kb == [] {
      ClosedMap(b, y, a, ka, x, first, number);
    } else {
      KeysDetermine(a, ka, x, b, kb, y, first, number);
      MembersEnd(a, ka[1..], x, number);
      MembersEnd(b, kb[1..], y, number);
      TextDetermines(a.fields[ka[0]], MembersText(a, ka[1..], false, number) + x,
                     b.fields[kb[0]], MembersText(b, kb[1..], false, number) + y, number, floats);
      MembersDetermine(a, ka[1..], x, b, kb[1..], y, false, number, floats);
      assert ka == [ka[0]] + ka[1..] && kb == [kb[0]] + kb[1..];
    }
  }

  /** Comparing canonical texts is comparing values, and hashing the text is hashing the value. */
  lemma TextIsInjective(a: Json, b: Json, number: real -> string, floats: iset<real>)
    requires NumbersOk(number, floats) && Over(a, floats) && Over(b, floats)
    ensures Text(a, number) == Text(b, number) <==> a == b
  {
    if Text(a, number) == Text(b, number) {
      assert Text(a, number) + [] == Text(b, number) + [];
      TextDetermines(a, [], b, [], number, floats);
    }
  }
}
