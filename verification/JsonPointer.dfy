/** JSON pointers (RFC 6901): escaping, canonical list indices, and resolution. */
module JsonPointer {
  import opened Wrappers
  import opened Json
  import opened Strings
  import opened Dotted

  // ---------- escaping (section 3) and unescaping (section 4) ----------

  function ReplaceChar(s: string, c: char, text: string): string {
    if s == [] then [] else (if s[0] == c then text else [s[0]]) + ReplaceChar(s[1..], c, text)
  }

  /** Left-to-right replacement of the two-character text `~c`. */
  function ReplaceEscape(s: string, c: char, text: char): string {
    if |s| < 2 then s
    else if s[0] == '~' && s[1] == c then [text] + ReplaceEscape(s[2..], c, text)
    else [s[0]] + ReplaceEscape(s[1..], c, text)
  }

  function Escape(token: string): string {
    ReplaceChar(ReplaceChar(token, '~', "~0"), '/', "~1")
  }

  function Unescape(token: string): string {
    ReplaceEscape(ReplaceEscape(token, '1', '/'), '0', '~')
  }

  /** Every tilde is followed by a zero: what escaping tildes alone produces. */
  predicate TildeZero(s: string) {
    forall i :: 0 <= i < |s| && s[i] == '~' ==> i + 1 < |s| && s[i + 1] == '0'
  }

  lemma {:induction false} EscapedTildes(s: string)
    ensures TildeZero(ReplaceChar(s, '~', "~0"))
  {
    if s != [] {
      EscapedTildes(s[1..]);
      var rest := ReplaceChar(s[1..], '~', "~0");
      var all := ReplaceChar(s, '~', "~0");
      forall i | 0 <= i < |all| && all[i] == '~' ensures i + 1 < |all| && all[i + 1] == '0' {
        if s[0] == '~' {
          if i >= 2 { assert rest[i - 2] == '~'; }
        } else if i >= 1 {
          assert rest[i - 1] == '~';
        }
      }
    }
  }

  lemma TildeZeroTail(first: char, rest: string)
    requires TildeZero([first] + rest)
    ensures TildeZero(rest)
  {
    var s := [first] + rest;
    forall i | 0 <= i < |rest| && rest[i] == '~' ensures i + 1 < |rest| && rest[i + 1] == '0' {
      assert s[i + 1] == rest[i] && s[i + 2] == '0';
    }
  }

  lemma {:induction false} UnescapeSlashes(s: string)
    requires TildeZero(s)
    ensures ReplaceEscape(ReplaceChar(s, '/', "~1"), '1', '/') == s
  {
    if s != [] {
      var first, rest := s[0], s[1..];
      assert s == [first] + rest;
      TildeZeroTail(first, rest);
      UnescapeSlashes(rest);
      var r := ReplaceChar(rest, '/', "~1");
      if first == '/' {
        assert (['~', '1'] + r)[2..] == r;
      } else if first == '~' {
        assert rest[0] == '0';
        assert rest == [rest[0]] + rest[1..];
        assert r[0] == '0';
      } else {
        assert ([first] + r)[1..] == r;
      }
    }
  }

  lemma {:induction false} UnescapeTildes(s: string)
    ensures ReplaceEscape(ReplaceChar(s, '~', "~0"), '0', '~') == s
    decreases |s|
  {
    if s != [] {
      UnescapeTildes(s[1..]);
      var r := ReplaceChar(s[1..], '~', "~0");
      assert s == [s[0]] + s[1..];
      if s[0] == '~' {
        assert ReplaceChar(s, '~', "~0") == ['~', '0'] + r;
        assert (['~', '0'] + r)[2..] == r;
      } else {
        assert ReplaceChar(s, '~', "~0") == [s[0]] + r;
        assert ([s[0]] + r)[1..] == r;
      }
    }
  }

  /** Unescaping undoes escaping for every key. */
  lemma UnescapeEscape(token: string)
    ensures Unescape(Escape(token)) == token
  {
    EscapedTildes(token);
    UnescapeSlashes(ReplaceChar(token, '~', "~0"));
    UnescapeTildes(token);
  }

  lemma {:induction false} ReplacedCharGone(s: string, c: char, text: string)
    requires c !in text
    ensures c !in ReplaceChar(s, c, text)
  {
    if s != [] {
      ReplacedCharGone(s[1..], c, text);
    }
  }

  lemma EscapeHasNoSlash(token: string)
    ensures '/' !in Escape(token)
  {
    ReplacedCharGone(ReplaceChar(token, '~', "~0"), '/', "~1");
  }

  // ---------- list indices ----------

  function Digit(n: nat): char
    requires n < 10
  {
    '0' + n as char
  }

  function Decimal(n: nat): string {
    if n < 10 then [Digit(n)] else Decimal(n / 10) + [Digit(n % 10)]
  }

  /** `0|[1-9][0-9]*` */
  predicate IsCanonicalIndex(token: string) {
    IsDigits(token) && (|token| == 1 || token[0] != '0')
  }

  lemma {:induction false} DecimalRoundTrip(n: nat)
    ensures IsCanonicalIndex(Decimal(n)) && ParseDigits(Decimal(n)) == n
    ensures n > 0 ==> Decimal(n)[0] != '0'
  {
    if n < 10 {
      assert Decimal(n)[..0] == [];
    } else {
      DecimalRoundTrip(n / 10);
      assert Decimal(n)[..|Decimal(n)| - 1] == Decimal(n / 10);
    }
  }

  /** A canonical index is the decimal text of its value. */
  lemma {:induction false} CanonicalIsDecimal(token: string)
    requires IsCanonicalIndex(token)
    ensures token == Decimal(ParseDigits(token))
    ensures |token| > 1 ==> ParseDigits(token) >= 10
    decreases |token|
  {
    var last := token[|token| - 1];
    var front := token[..|token| - 1];
    assert token == front + [last];
    if |token| > 1 {
      CanonicalIsDecimal(front);
      if |front| == 1 {
        assert ParseDigits(front)
          == 10 * ParseDigits([]) + (front[0] as int - '0' as int) by { assert front[..0] == []; }
      }
    } else {
      assert front == [];
    }
  }

  // ---------- resolution ----------

  datatype PointerError =
    | MissingKey(key: string)
    | NotAnIndex(token: string)
    | OutOfRange(index: nat)
    | ThroughScalar(token: string)

  function ResolveToken(current: Json, token: string): Result<Json, PointerError> {
    match current
    case Map(fields) => if token in fields then Ok(fields[token]) else Err(MissingKey(token))
    case List(items) =>
      if !IsCanonicalIndex(token) then Err(NotAnIndex(token))
      else if ParseDigits(token) >= |items| then Err(OutOfRange(ParseDigits(token)))
      else Ok(items[ParseDigits(token)])
    case _ => Err(ThroughScalar(token))
  }

  function ResolveTokens(current: Json, tokens: seq<string>): Result<Json, PointerError>
    decreases |tokens|
  {
    if tokens == [] then Ok(current)
    else
      var next := ResolveToken(current, tokens[0]);
      if next.Err? then next else ResolveTokens(next.value, tokens[1..])
  }

  /** A token names a member of a mapping, or an item of a list by the decimal text of its position. */
  lemma TokenMeaning(current: Json, token: string)
    ensures current.Map? ==>
              ResolveToken(current, token)
              == if token in current.fields then Ok(current.fields[token]) else Err(MissingKey(token))
    ensures !current.Map? && !current.List? ==> ResolveToken(current, token) == Err(ThroughScalar(token))
    ensures current.List? && (forall i: nat :: token != Decimal(i)) ==>
              ResolveToken(current, token) == Err(NotAnIndex(token))
  {
    if current.List? && IsCanonicalIndex(token) {
      CanonicalIsDecimal(token);
    }
  }

  lemma PositionMeaning(items: seq<Json>, i: nat)
    ensures ResolveToken(List(items), Decimal(i)) == if i < |items| then Ok(items[i]) else Err(OutOfRange(i))
  {
    DecimalRoundTrip(i);
  }

  function Unescaped(tokens: seq<string>): seq<string> {
    seq(|tokens|, i requires 0 <= i < |tokens| => Unescape(tokens[i]))
  }

  function ResolvePointer(document: Json, pointer: string): Result<Json, PointerError> {
    if pointer == "" then Ok(document) else ResolveTokens(document, Unescaped(Split(pointer[1..], '/')))
  }

  method ResolveJsonPointer(document: Json, pointer: string) returns (r: Result<Json, PointerError>)
    ensures r == ResolvePointer(document, pointer)
  {
    if pointer == "" {
      return Ok(document);
    }
    var current := document;
    var encoded := Split(pointer[1..], '/');
    ghost var tokens := Unescaped(encoded);
    for i := 0 to |encoded|
      invariant ResolvePointer(document, pointer) == ResolveTokens(current, tokens[i..])
    {
      var token := Unescape(encoded[i]);
      assert tokens[i..][0] == token && tokens[i..][1..] == tokens[i + 1..];
      var next := ResolveToken(current, token);
      if next.Err? {
        return next;
      }
      current := next.value;
    }
    return Ok(current);
  }

  /** The pointer text of a token path. */
  function Render(tokens: seq<string>): string {
    if tokens == [] then "" else Render(tokens[..|tokens| - 1]) + "/" + Escape(tokens[|tokens| - 1])
  }

  function Escaped(tokens: seq<string>): seq<string> {
    seq(|tokens|, i requires 0 <= i < |tokens| => Escape(tokens[i]))
  }

  lemma {:induction false} RenderIsJoin(tokens: seq<string>)
    requires tokens != []
    ensures Render(tokens) == "/" + Join(Escaped(tokens), '/')
    decreases |tokens|
  {
    var front := tokens[..|tokens| - 1];
    if |tokens| == 1 {
      assert Escaped(tokens) == [Escape(tokens[0])];
    } else {
      RenderIsJoin(front);
      assert Escaped(tokens) == Escaped(front) + [Escape(tokens[|tokens| - 1])];
      JoinAppend(Escaped(front), [Escape(tokens[|tokens| - 1])], '/');
    }
  }

  /** Splitting the pointer text gives back the escaped tokens. */
  lemma RenderSplits(tokens: seq<string>)
    requires tokens != []
    ensures Render(tokens) != "" && Split(Render(tokens)[1..], '/') == Escaped(tokens)
  {
    RenderIsJoin(tokens);
    forall i | 0 <= i < |tokens| ensures '/' !in Escaped(tokens)[i] {
      EscapeHasNoSlash(tokens[i]);
    }
    SplitJoin(Escaped(tokens), '/');
    assert Render(tokens)[1..] == Join(Escaped(tokens), '/');
  }

  lemma UnescapedEscaped(tokens: seq<string>)
    ensures Unescaped(Escaped(tokens)) == tokens
  {
    forall i | 0 <= i < |tokens| ensures Unescape(Escape(tokens[i])) == tokens[i] {
      UnescapeEscape(tokens[i]);
    }
  }

  /** Resolving the text of a path walks that path. */
  lemma RenderResolves(document: Json, tokens: seq<string>)
    ensures ResolvePointer(document, Render(tokens)) == ResolveTokens(document, tokens)
  {
    if tokens != [] {
      RenderSplits(tokens);
      UnescapedEscaped(tokens);
    }
  }

  /** Pointer texts are equal, or one lies below the other, only if the token paths are. */
  lemma RenderReflectsPrefix(a: seq<string>, b: seq<string>)
    ensures Render(a) == Render(b) ==> a == b
    ensures a != [] && Render(a) + "/" <= Render(b) ==> a < b
  {
    if a != [] && b != [] {
      RenderSplits(a);
      RenderSplits(b);
      UnescapedEscaped(a);
      UnescapedEscaped(b);
      if Render(a) + "/" <= Render(b) {
        var sa, sb := Render(a)[1..], Render(b)[1..];
        assert sa + ['/'] <= sb;
        AncestorIsTextPrefix(sa, sb, '/');
        assert Escaped(a) < Escaped(b);
        forall i | 0 <= i < |a| ensures a[i] == b[i] {
          assert Escaped(a)[i] == Escaped(b)[i];
          UnescapeEscape(a[i]);
          UnescapeEscape(b[i]);
        }
      }
    } else if a != [] {
      RenderSplits(a);
    } else if b != [] {
      RenderSplits(b);
    }
  }
}
