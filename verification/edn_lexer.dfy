/**
 * The literal recognizer of the EDN reader. Given the unconsumed text, it
 * decides what the next form is and how many characters it takes,
 * including every separator (space, tab, CR, LF, comma) that follows it.
 * Patterns are tried in a fixed order (edn.js:104-264): set opener, the
 * six brackets, string, character, nil, false, true, float, integer,
 * symbol, keyword, line comment, tag.
 */
module EdnLexer {
  import opened EdnValue

  // ---------------------------------------------------------------------
  // Character classes (edn.js:9-34)
  // ---------------------------------------------------------------------

  /** Whitespace and commas, which only separate forms. */
  predicate IsSep(c: char) { c == ' ' || c == '\t' || c == '\r' || c == '\n' || c == ',' }

  predicate IsLetter(c: char) { 'a' <= c <= 'z' || 'A' <= c <= 'Z' }

  predicate IsDigit(c: char) { '0' <= c <= '9' }

  predicate IsAlnum(c: char) { IsLetter(c) || IsDigit(c) }

  /** A character that may continue a symbol, keyword or tag name. */
  predicate IsSymChar(c: char) {
    || c == '.' || c == '*' || c == '+' || c == '!' || c == '-' || c == '_' || c == '?' || c == '$'
    || c == '%' || c == '&' || c == '=' || c == '<' || c == '>' || c == ':' || c == '#'
    || IsAlnum(c)
  }

  /** A character that may start a name on its own. */
  predicate IsStartChar(c: char) {
    || c == '*' || c == '!' || c == '_' || c == '?' || c == '$' || c == '%' || c == '&' || c == '='
    || c == '<' || c == '>'
    || IsLetter(c)
  }

  /** `.`, `+` and `-` start a name only when a non-digit follows. */
  predicate IsSignOrDot(c: char) { c == '.' || c == '+' || c == '-' }

  /** Characters a regex `.` does not match. */
  predicate IsLineTerminator(c: char) { c == '\n' || c == '\r' || c == '\U{2028}' || c == '\U{2029}' }

  predicate IsUpperHex(c: char) { IsDigit(c) || 'A' <= c <= 'F' }

  /** The separators at the head of `s`. */
  function SepRun(s: string): (n: nat)
    ensures n <= |s|
    ensures forall k :: 0 <= k < n ==> IsSep(s[k])
    ensures n < |s| ==> !IsSep(s[n])
  {
    if |s| > 0 && IsSep(s[0]) then 1 + SepRun(s[1..]) else 0
  }

  /** The symbol characters at the head of `s`. */
  function SymRun(s: string): (n: nat)
    ensures n <= |s|
    ensures forall k :: 0 <= k < n ==> IsSymChar(s[k])
    ensures n < |s| ==> !IsSymChar(s[n])
  {
    if |s| > 0 && IsSymChar(s[0]) then 1 + SymRun(s[1..]) else 0
  }

  /** The decimal digits at the head of `s`. */
  function DigitRun(s: string): (n: nat)
    ensures n <= |s|
    ensures forall k :: 0 <= k < n ==> IsDigit(s[k])
    ensures n < |s| ==> !IsDigit(s[n])
  {
    if |s| > 0 && IsDigit(s[0]) then 1 + DigitRun(s[1..]) else 0
  }

  /** The letters and digits at the head of `s`. */
  function AlnumRun(s: string): (n: nat)
    ensures n <= |s|
    ensures forall k :: 0 <= k < n ==> IsAlnum(s[k])
    ensures n < |s| ==> !IsAlnum(s[n])
  {
    if |s| > 0 && IsAlnum(s[0]) then 1 + AlnumRun(s[1..]) else 0
  }

  // ---------------------------------------------------------------------
  // Names: symbols, keywords, tags (edn.js:13-15)
  // ---------------------------------------------------------------------

  /** The first one or two characters of a name, or 0 when none starts here. */
  function HeadLen(s: string): (n: nat)
    ensures n <= |s|
  {
    if |s| > 0 && IsStartChar(s[0]) then 1
    else if |s| > 1 && IsSignOrDot(s[0]) && IsSymChar(s[1]) && !IsDigit(s[1]) then 2
    else 0
  }

  /** A name without namespace: a head and every symbol character after it. */
  function NameLen(s: string): (n: nat)
    ensures n <= |s|
    ensures n > 0 ==> forall k :: 0 <= k < n ==> IsSymChar(s[k])
    ensures n > 0 ==> n == |s| || !IsSymChar(s[n])
  {
    var h := HeadLen(s);
    if h == 0 then 0 else h + SymRun(s[h..])
  }

  /**
   * A start character, then every symbol character after it: a name
   * part, or the run a namespace takes before its `/`; 0 when none.
   */
  function StartRun(s: string): (n: nat)
    ensures n <= |s|
    ensures n > 0 ==> IsStartChar(s[0]) && (n == |s| || !IsSymChar(s[n]))
  {
    if |s| > 0 && IsStartChar(s[0]) then 1 + SymRun(s[1..]) else 0
  }

  /** A letter, then every symbol character after it: a tag's namespace; 0 when none. */
  function LetterRun(s: string): (n: nat)
    ensures n <= |s|
    ensures n > 0 ==> IsLetter(s[0]) && (n == |s| || !IsSymChar(s[n]))
  {
    if |s| > 0 && IsLetter(s[0]) then 1 + SymRun(s[1..]) else 0
  }

  /**
   * The length of a symbol, 0 when none: an optional namespace, which
   * starts with a start character and ends with `/`, and a name. A name
   * that cannot follow the `/` leaves the namespace out.
   */
  function SymbolLen(s: string): (n: nat)
    ensures n <= |s|
    ensures n > 0 <==> NameLen(s) > 0
  {
    var a := StartRun(s);
    if a > 0 && a < |s| && s[a] == '/' && NameLen(s[a + 1..]) > 0 then a + 1 + NameLen(s[a + 1..])
    else NameLen(s)
  }

  /**
   * The name part of a tag: a sign or dot with one more character, and
   * nothing after them, or a start character followed by every symbol
   * character; 0 when none.
   */
  function TagPartLen(s: string): (n: nat)
    ensures n <= |s|
  {
    if |s| > 1 && IsSignOrDot(s[0]) && IsSymChar(s[1]) && !IsDigit(s[1]) then 2
    else StartRun(s)
  }

  /** The length of a tag name: an optional namespace starting with a letter, and a name part. */
  function TagNameLen(s: string): (n: nat)
    ensures n <= |s|
    ensures n > 0 <==> TagPartLen(s) > 0
  {
    var a := LetterRun(s);
    if a > 0 && a < |s| && s[a] == '/' && TagPartLen(s[a + 1..]) > 0 then a + 1 + TagPartLen(s[a + 1..])
    else TagPartLen(s)
  }

  // ---------------------------------------------------------------------
  // Numbers (edn.js:17, 28)
  // ---------------------------------------------------------------------

  function SignLen(s: string): (n: nat)
    ensures n <= 1 && n <= |s|
  {
    if |s| > 0 && (s[0] == '+' || s[0] == '-') then 1 else 0
  }

  /** `[+-]?(0|[1-9][0-9]*)`: the length of an integer part, or 0. */
  function IntPartLen(s: string): (n: nat)
    ensures n <= |s|
    ensures n > 0 ==> n > SignLen(s) && IsDigit(s[SignLen(s)])
    ensures n > 0 ==> forall k :: SignLen(s) <= k < n ==> IsDigit(s[k])
  {
    var g := SignLen(s);
    if g < |s| && s[g] == '0' then g + 1
    else if g < |s| && '1' <= s[g] <= '9' then g + 1 + DigitRun(s[g + 1..])
    else 0
  }

  /**
   * What follows the integer part of a float: `.digits` with an exponent,
   * `.digits` alone, or an exponent alone, tried in that order; 0 when none.
   */
  function FracExpLen(r: string): (n: nat)
    ensures n <= |r|
  {
    if |r| > 1 && r[0] == '.' && IsDigit(r[1]) then
      var f := 1 + DigitRun(r[1..]);
      if f < |r| && (r[f] == 'e' || r[f] == 'E') && IntPartLen(r[f + 1..]) > 0
      then f + 1 + IntPartLen(r[f + 1..])
      else f
    else if |r| > 0 && (r[0] == 'e' || r[0] == 'E') && IntPartLen(r[1..]) > 0 then
      1 + IntPartLen(r[1..])
    else 0
  }

  /** The length of a float literal with its optional `M`, or 0. */
  function FloatLen(s: string): (n: nat)
    ensures n <= |s|
    ensures n > 0 ==> IntPartLen(s) > 0 && n > IntPartLen(s)
  {
    var k := IntPartLen(s);
    if k == 0 then 0
    else
      var m := FracExpLen(s[k..]);
      if m == 0 then 0
      else if k + m < |s| && s[k + m] == 'M' then k + m + 1
      else k + m
  }

  /** The length of an integer literal with its optional `N`, or 0. */
  function IntegerLen(s: string): (n: nat)
    ensures n <= |s|
    ensures n > 0 <==> IntPartLen(s) > 0
    ensures n >= IntPartLen(s)
  {
    var k := IntPartLen(s);
    if k == 0 then 0 else if k < |s| && s[k] == 'N' then k + 1 else k
  }

  /** The value of a run of decimal digits. */
  function DigitsValue(d: string): (v: nat)
  {
    if |d| == 0 then 0 else DigitsValue(d[..|d| - 1]) * 10 + ((d[|d| - 1] as int - '0' as int) % 10)
  }

  /** The value of an optionally signed run of decimal digits. */
  function SignedValue(t: string): (v: int)
  {
    if |t| > 0 && t[0] == '-' then -(DigitsValue(t[1..]) as int)
    else if |t| > 0 && t[0] == '+' then DigitsValue(t[1..])
    else DigitsValue(t)
  }

  // ---------------------------------------------------------------------
  // Strings, characters, comments (edn.js:30-34, 184-196)
  // ---------------------------------------------------------------------

  /**
   * The index of the quote that closes a string whose body starts at `i`:
   * a backslash always takes the next character with it unless that is a
   * line terminator, in which case the string does not match.
   */
  function StringEnd(s: string, i: nat): (r: Option<nat>)
    ensures r.Some? ==> i <= r.value < |s| && s[r.value] == '"'
    decreases |s| - i
  {
    if i >= |s| then None
    else if s[i] == '"' then Some(i)
    else if s[i] == '\\' then
      if i + 1 < |s| && !IsLineTerminator(s[i + 1]) then StringEnd(s, i + 2) else None
    else StringEnd(s, i + 1)
  }

  /** The named characters of the character table (edn.js:188). */
  function NamedChar(name: string): (r: Option<string>)
    ensures r.Some? ==> |r.value| == 1
  {
    if name == "newline" then Some("\n")
    else if name == "return" then Some("\r")
    else if name == "space" then Some(" ")
    else if name == "tab" then Some("\t")
    else None
  }

  /** `u` and four upper-case hex digits at position `k`. */
  predicate UHexAt(name: string, k: nat)
    requires k + 5 <= |name|
  {
    name[k] == 'u' && IsUpperHex(name[k + 1]) && IsUpperHex(name[k + 2])
    && IsUpperHex(name[k + 3]) && IsUpperHex(name[k + 4])
  }

  /** The unanchored test `u[A-F0-9]{4}` anywhere in the name. */
  predicate HasUHex(name: string) {
    exists k: nat | k + 5 <= |name| :: UHexAt(name, k)
  }

  /** What a character literal `\name` reads as, or the error it raises. */
  function CharLiteral(name: string, unescape: string -> string): (r: Result<Value>)
    ensures r.Ok? <==> NamedChar(name).Some? || HasUHex(name)
    ensures r.Ok? ==> r.value.Str?
    ensures r.Err? ==> r.error == InvalidCharLiteral(name)
    ensures NamedChar(name).Some? ==> r == Ok(Str(NamedChar(name).value))
    ensures NamedChar(name).None? && HasUHex(name) ==> r == Ok(Str(unescape("%" + name)))
  {
    match NamedChar(name)
    case Some(c) => Ok(Str(c))
    case None =>
      if HasUHex(name) then Ok(Str(unescape("%" + name))) else Err(InvalidCharLiteral(name))
  }

  /** The index of the first line feed in `s` at or after `i`. */
  function NewlineFrom(s: string, i: nat): (r: Option<nat>)
    ensures r.Some? ==> i <= r.value < |s| && s[r.value] == '\n'
    ensures r.Some? ==> forall k :: i <= k < r.value ==> s[k] != '\n'
    ensures r.None? ==> forall k :: i <= k < |s| ==> s[k] != '\n'
    decreases |s| - i
  {
    if i >= |s| then None else if s[i] == '\n' then Some(i) else NewlineFrom(s, i + 1)
  }

  /** `word` at the head of `s`, not followed by a symbol character (edn.js:9-11). */
  predicate WordAt(s: string, word: string) {
    |word| <= |s| && s[..|word|] == word && (|s| == |word| || !IsSymChar(s[|word|]))
  }

  // ---------------------------------------------------------------------
  // The recognizer
  // ---------------------------------------------------------------------

  datatype Token =
    | Open(kind: Kind)          // `#{`, `(`, `[`, `{`
    | Close(closer: char)       // `)`, `]`, `}`
    | Scalar(v: Value)          // string, character, nil, boolean, number, symbol, keyword
    | Comment
    | TagMark(name: string)     // `#name`

  /** A token the recognizer can produce: scalars never refer to collections. */
  predicate Lexical(tok: Token) {
    tok.Scalar? ==> !tok.v.Ref?
  }

  /** A recognized token and the number of characters it consumes. */
  datatype Lexeme = Lexeme(token: Token, len: nat)

  /** A token whose text is `s[..n]`, with the separators after it. */
  function Take(s: string, token: Token, n: nat): (r: Lexeme)
    requires 0 < n <= |s|
    ensures 0 < r.len <= |s| && (r.len < |s| ==> !IsSep(s[r.len]))
    ensures r.token == token && r.len == n + SepRun(s[n..])
  {
    Lexeme(token, n + SepRun(s[n..]))
  }

  /**
   * The next token of the non-empty text `s` (edn.js:102-264). Every
   * token swallows the separators after it; text that no pattern matches
   * raises `CannotParse`, an unknown character name `InvalidCharLiteral`.
   * The brackets come first (edn.js:104-175), then `LexLiteral`.
   */
  function Lex(s: string, unescape: string -> string): (r: Result<Lexeme>)
    requires |s| > 0
    ensures r.Ok? ==> 0 < r.value.len <= |s| && (r.value.len < |s| ==> !IsSep(s[r.value.len]))
    ensures r.Err? ==> r.error == CannotParse(s) || r.error.InvalidCharLiteral?
    ensures r.Ok? ==> Lexical(r.value.token)
  {
    if |s| > 1 && s[0] == '#' && s[1] == '{' then Ok(Take(s, Open(SetK), 2))
    else if s[0] == '(' then Ok(Take(s, Open(ListK), 1))
    else if s[0] == ')' then Ok(Take(s, Close(')'), 1))
    else if s[0] == '[' then Ok(Take(s, Open(VectorK), 1))
    else if s[0] == ']' then Ok(Take(s, Close(']'), 1))
    else if s[0] == '{' then Ok(Take(s, Open(MapK), 1))
    else if s[0] == '}' then Ok(Take(s, Close('}'), 1))
    else LexLiteral(s, unescape)
  }

  /** Strings and characters (edn.js:176-200), then `LexWord`. */
  function LexLiteral(s: string, unescape: string -> string): (r: Result<Lexeme>)
    requires |s| > 0
    ensures r.Ok? ==> 0 < r.value.len <= |s| && (r.value.len < |s| ==> !IsSep(s[r.value.len]))
    ensures r.Err? ==> r.error == CannotParse(s) || r.error.InvalidCharLiteral?
    ensures r.Ok? ==> r.value.token.Scalar? || r.value.token.Comment? || r.value.token.TagMark?
    ensures r.Ok? ==> Lexical(r.value.token)
  {
    if s[0] == '"' && StringEnd(s, 1).Some? then
      var e := StringEnd(s, 1).value;
      Ok(Take(s, Scalar(Str(s[1..e])), e + 1))
    else if s[0] == '\\' && AlnumRun(s[1..]) > 0 then
      var n := AlnumRun(s[1..]);
      match CharLiteral(s[1..1 + n], unescape)
      case Ok(c) => Ok(Take(s, Scalar(c), 1 + n))
      case Err(e) => Err(e)
    else LexWord(s)
  }

  /** `nil`, `false`, `true` (edn.js:201-218), then `LexNumber`. */
  function LexWord(s: string): (r: Result<Lexeme>)
    requires |s| > 0
    ensures r.Ok? ==> 0 < r.value.len <= |s| && (r.value.len < |s| ==> !IsSep(s[r.value.len]))
    ensures r.Err? ==> r.error == CannotParse(s)
    ensures r.Ok? ==> r.value.token.Scalar? || r.value.token.Comment? || r.value.token.TagMark?
    ensures r.Ok? && r.value.token.Scalar? ==> !r.value.token.v.Ref?
  {
    if WordAt(s, "nil") then Ok(Take(s, Scalar(Nil), 3))
    else if WordAt(s, "false") then Ok(Take(s, Scalar(Bool(false)), 5))
    else if WordAt(s, "true") then Ok(Take(s, Scalar(Bool(true)), 4))
    else LexNumber(s)
  }

  /** A float, then an integer (edn.js:219-236), then `LexName`. */
  function LexNumber(s: string): (r: Result<Lexeme>)
    requires |s| > 0
    ensures r.Ok? ==> 0 < r.value.len <= |s| && (r.value.len < |s| ==> !IsSep(s[r.value.len]))
    ensures r.Err? ==> r.error == CannotParse(s)
    ensures r.Ok? ==> r.value.token.Scalar? || r.value.token.Comment? || r.value.token.TagMark?
    ensures r.Ok? && r.value.token.Scalar? ==> r.value.token.v.Int? || r.value.token.v.Float? || r.value.token.v.Str?
  {
    if FloatLen(s) > 0 then
      Ok(Take(s, Scalar(Float(s[..FloatLen(s)])), FloatLen(s)))
    else if IntegerLen(s) > 0 then
      Ok(Take(s, Scalar(Int(SignedValue(s[..IntPartLen(s)]))), IntegerLen(s)))
    else LexName(s)
  }

  /** A symbol, a keyword, a line comment, a tag (edn.js:237-262), or nothing. */
  function LexName(s: string): (r: Result<Lexeme>)
    requires |s| > 0
    ensures r.Ok? ==> 0 < r.value.len <= |s| && (r.value.len < |s| ==> !IsSep(s[r.value.len]))
    ensures r.Err? ==> r.error == CannotParse(s)
    ensures r.Ok? ==> r.value.token.Comment? || r.value.token.TagMark? || (r.value.token.Scalar? && r.value.token.v.Str?)
  {
    if SymbolLen(s) > 0 then
      Ok(Take(s, Scalar(Str(s[..SymbolLen(s)])), SymbolLen(s)))
    else if s[0] == ':' && SymbolLen(s[1..]) > 0 then
      Ok(Take(s, Scalar(Str(s[1..1 + SymbolLen(s[1..])])), 1 + SymbolLen(s[1..])))
    else if s[0] == ';' && NewlineFrom(s, 1).Some? then
      Ok(Take(s, Comment, NewlineFrom(s, 1).value + 1))
    else if s[0] == '#' && TagNameLen(s[1..]) > 0 then
      Ok(Take(s, TagMark(s[1..1 + TagNameLen(s[1..])]), 1 + TagNameLen(s[1..])))
    else Err(CannotParse(s))
  }

  // ---------------------------------------------------------------------
  // What each pattern matches
  // ---------------------------------------------------------------------

  /**
   * A symbol (edn.js:13) is a run of symbol characters that goes as far
   * as it can, with at most one `/`: the one that ends the namespace. It
   * starts as a name starts, and a `/` inside it is followed by a name.
   */
  lemma SymbolMatches(s: string)
    ensures var n := SymbolLen(s);
            var a := StartRun(s);
            && (n > 0 ==> HeadLen(s) > 0 && (n == |s| || !IsSymChar(s[n])))
            && (forall k :: 0 <= k < n ==> IsSymChar(s[k]) || (k == a && s[k] == '/'))
            && (0 < a < n ==> s[a] == '/' && HeadLen(s[a + 1..]) > 0)
            && (0 < a < |s| && s[a] == '/' && NameLen(s[a + 1..]) > 0 ==> n > a + 1)
  {
    var n := SymbolLen(s);
    var a := StartRun(s);
    if a > 0 && a < |s| && s[a] == '/' && NameLen(s[a + 1..]) > 0 {
      var t := s[a + 1..];
      forall k | 0 <= k < n
        ensures IsSymChar(s[k]) || (k == a && s[k] == '/')
      {
        if 0 < k < a {
          assert s[k] == s[1..][k - 1];
        } else if k > a {
          assert s[k] == t[k - a - 1];
        }
      }
      assert n < |s| ==> s[n] == t[n - a - 1];
    }
  }

  /**
   * The name part of a tag (edn.js:15): a sign or dot and one more
   * character, nothing after them; or a start character and every symbol
   * character that follows it.
   */
  lemma TagPartMatches(t: string)
    ensures var m := TagPartLen(t);
            && (m == 0 <==> |t| == 0 || (!IsStartChar(t[0]) && !(|t| > 1 && IsSignOrDot(t[0]) && IsSymChar(t[1]) && !IsDigit(t[1]))))
            && (m > 0 && IsSignOrDot(t[0]) ==> m == 2 && IsSymChar(t[1]) && !IsDigit(t[1]))
            && (m > 0 && !IsSignOrDot(t[0]) ==>
                  IsStartChar(t[0]) && (forall k :: 0 <= k < m ==> IsSymChar(t[k])) && (m == |t| || !IsSymChar(t[m])))
  {
    var m := TagPartLen(t);
    if m > 0 && !IsSignOrDot(t[0]) {
      forall k | 0 < k < m
        ensures IsSymChar(t[k])
      {
        assert t[k] == t[1..][k - 1];
      }
      assert m < |t| ==> t[m] == t[1..][m - 1];
    }
  }

  /**
   * A tag name (edn.js:15): a name part, or a namespace (a letter and
   * symbol characters) with `/` and a name part. The namespace is taken
   * whenever a name part follows its `/`.
   */
  lemma TagNameMatches(s: string)
    ensures var n := TagNameLen(s);
            var a := LetterRun(s);
            && (0 < a < |s| && s[a] == '/' && TagPartLen(s[a + 1..]) > 0 ==>
                  IsLetter(s[0]) && (forall k :: 0 <= k < a ==> IsSymChar(s[k])) && n == a + 1 + TagPartLen(s[a + 1..]))
            && (!(0 < a < |s| && s[a] == '/' && TagPartLen(s[a + 1..]) > 0) ==> n == TagPartLen(s))
  {
    var a := LetterRun(s);
    if 0 < a < |s| && s[a] == '/' && TagPartLen(s[a + 1..]) > 0 {
      forall k | 0 < k < a
        ensures IsSymChar(s[k])
      {
        assert s[k] == s[1..][k - 1];
      }
    }
  }

  /**
   * `[+-]?(0|[1-9][0-9]*)` (edn.js:17): an optional sign and a digit;
   * a leading `0` stands alone, any other digit takes every digit after it.
   */
  lemma IntPartMatches(s: string)
    ensures var g := SignLen(s);
            var n := IntPartLen(s);
            && (g == 1 <==> |s| > 0 && (s[0] == '+' || s[0] == '-'))
            && (n == 0 <==> g == |s| || !IsDigit(s[g]))
            && (n > 0 && s[g] == '0' ==> n == g + 1)
            && (n > 0 && s[g] != '0' ==> (forall k :: g <= k < n ==> IsDigit(s[k])) && (n == |s| || !IsDigit(s[n])))
  {
    var g := SignLen(s);
    var n := IntPartLen(s);
    if n > 0 && s[g] != '0' {
      var d := s[g + 1..];
      forall k | g < k < n
        ensures IsDigit(s[k])
      {
        assert s[k] == d[k - g - 1];
      }
      assert n < |s| ==> s[n] == d[n - g - 1];
    }
  }

  /** An integer (edn.js:17): its integer part and, when an `N` follows, the `N`. */
  lemma IntegerMatches(s: string)
    ensures var k := IntPartLen(s);
            var n := IntegerLen(s);
            && (k == 0 ==> n == 0)
            && (k > 0 && k < |s| && s[k] == 'N' ==> n == k + 1)
            && (k > 0 && (k == |s| || s[k] != 'N') ==> n == k)
  {
  }

  /** `.` and one or more digits. */
  predicate Fraction(t: string) {
    |t| > 1 && t[0] == '.' && forall k :: 1 <= k < |t| ==> IsDigit(t[k])
  }

  /** `e` or `E` and an integer part that spans the rest. */
  predicate Exponent(t: string) {
    |t| > 1 && (t[0] == 'e' || t[0] == 'E') && IntPartLen(t[1..]) == |t| - 1
  }

  /** An exponent can start the text. */
  predicate ExponentAhead(r: string) {
    |r| > 0 && (r[0] == 'e' || r[0] == 'E') && IntPartLen(r[1..]) > 0
  }

  /**
   * What follows a float's integer part (edn.js:28): a fraction that
   * takes every digit, with an exponent after it whenever one follows;
   * or an exponent alone. Nothing else.
   */
  lemma FracExpMatches(r: string)
    ensures var m := FracExpLen(r);
            && (m > 0 <==> (|r| > 1 && r[0] == '.' && IsDigit(r[1])) || ExponentAhead(r))
            && (m > 0 && r[0] == '.' ==>
                  var f := 1 + DigitRun(r[1..]);
                  && f <= m && Fraction(r[..f]) && (f == |r| || !IsDigit(r[f]))
                  && (m == f || Exponent(r[f..m]))
                  && (m == f <==> !ExponentAhead(r[f..])))
            && (m > 0 && r[0] != '.' ==> Exponent(r[..m]))
  {
    var m := FracExpLen(r);
    if |r| > 1 && r[0] == '.' && IsDigit(r[1]) {
      FractionMatches(r);
    } else if m > 0 {
      assert r[..m][1..] == r[1..][..m - 1];
      IntPartPrefix(r[1..], m - 1);
    }
  }

  /** The fraction case of `FracExpMatches`. */
  lemma FractionMatches(r: string)
    requires |r| > 1 && r[0] == '.' && IsDigit(r[1])
    ensures var m := FracExpLen(r);
            var f := 1 + DigitRun(r[1..]);
            && f <= m && Fraction(r[..f]) && (f == |r| || !IsDigit(r[f]))
            && (m == f || Exponent(r[f..m]))
            && (m == f <==> !ExponentAhead(r[f..]))
  {
    var f := 1 + DigitRun(r[1..]);
    FractionPart(r);
    ExponentAfter(r, f);
    assert FracExpLen(r) == if ExponentAhead(r[f..]) then f + 1 + IntPartLen(r[f + 1..]) else f;
  }

  /** A dot and a digit start a fraction that takes every digit after the dot. */
  lemma FractionPart(r: string)
    requires |r| > 1 && r[0] == '.' && IsDigit(r[1])
    ensures var f := 1 + DigitRun(r[1..]);
            f <= |r| && Fraction(r[..f]) && (f == |r| || !IsDigit(r[f]))
  {
    var f := 1 + DigitRun(r[1..]);
    forall k | 1 <= k < f
      ensures IsDigit(r[..f][k])
    {
      assert r[..f][k] == r[1..][k - 1];
    }
    assert f < |r| ==> r[f] == r[1..][f - 1];
  }

  /** The exponent after position `f`, when one starts there. */
  lemma ExponentAfter(r: string, f: nat)
    requires f <= |r|
    ensures f < |r| && (r[f] == 'e' || r[f] == 'E') && IntPartLen(r[f + 1..]) > 0 <==> ExponentAhead(r[f..])
    ensures ExponentAhead(r[f..]) ==> Exponent(r[f..f + 1 + IntPartLen(r[f + 1..])])
  {
    if f < |r| {
      assert r[f..][0] == r[f] && r[f..][1..] == r[f + 1..];
      if ExponentAhead(r[f..]) {
        var m := f + 1 + IntPartLen(r[f + 1..]);
        assert r[f..m][1..] == r[f + 1..][..m - f - 1];
        IntPartPrefix(r[f + 1..], m - f - 1);
      }
    }
  }

  /** Cutting the text where its integer part ends leaves that integer part. */
  lemma IntPartPrefix(t: string, k: nat)
    requires k == IntPartLen(t) && k > 0
    ensures IntPartLen(t[..k]) == k
  {
    var g := SignLen(t);
    assert SignLen(t[..k]) == g;
    if t[g] != '0' {
      var d := t[g + 1..];
      var e := t[..k][g + 1..];
      assert e == d[..k - g - 1];
      assert forall j :: 0 <= j < |e| ==> IsDigit(e[j]);
      DigitRunAll(e);
    }
  }

  /** A text of digits is one run. */
  lemma {:induction false} DigitRunAll(e: string)
    requires forall j :: 0 <= j < |e| ==> IsDigit(e[j])
    ensures DigitRun(e) == |e|
  {
    if |e| > 0 {
      DigitRunAll(e[1..]);
    }
  }

  /**
   * A float (edn.js:28): an integer part, what `FracExpMatches` allows
   * after it, and an `M` when one follows.
   */
  lemma FloatMatches(s: string)
    ensures var k := IntPartLen(s);
            var n := FloatLen(s);
            && (n > 0 <==> k > 0 && FracExpLen(s[k..]) > 0)
            && (n > 0 ==>
                  var e := k + FracExpLen(s[k..]);
                  (n == e + 1 && s[e] == 'M') || (n == e && (e == |s| || s[e] != 'M')))
  {
  }

  /**
   * The body of a string (edn.js:30): characters other than `"` and `\`,
   * and a backslash with any character a regex `.` matches.
   */
  predicate StringBody(t: string)
    decreases |t|
  {
    || |t| == 0
    || (t[0] != '"' && t[0] != '\\' && StringBody(t[1..]))
    || (|t| > 1 && t[0] == '\\' && !IsLineTerminator(t[1]) && StringBody(t[2..]))
  }

  /**
   * A quote at `e` closes the string whose body starts at `i` exactly when
   * the text between is a string body: `StringEnd` finds that quote, and
   * no other, and finds none when there is no such quote.
   */
  lemma {:induction false} StringEndMatches(s: string, i: nat, e: nat)
    requires i <= e < |s| && s[e] == '"'
    ensures StringBody(s[i..e]) <==> StringEnd(s, i) == Some(e)
    decreases e - i
  {
    var t := s[i..e];
    if i < e {
      assert t[0] == s[i];
      if s[i] == '\\' {
        if i + 1 < e {
          assert t[1] == s[i + 1] && t[2..] == s[i + 2..e];
          StringEndMatches(s, i + 2, e);
        }
      } else if s[i] != '"' {
        assert t[1..] == s[i + 1..e];
        StringEndMatches(s, i + 1, e);
      }
    }
  }

  // ---------------------------------------------------------------------
  // Properties of the recognizer
  // ---------------------------------------------------------------------

  /** Digits over `t + rest` stop where `t` ends when `rest` does not start with one. */
  lemma {:induction false} DigitRunAppend(t: string, rest: string)
    requires forall k :: 0 <= k < |t| ==> IsDigit(t[k])
    requires |rest| == 0 || !IsDigit(rest[0])
    ensures DigitRun(t + rest) == |t|
  {
    if |t| == 0 {
      assert t + rest == rest;
    } else {
      assert (t + rest)[1..] == t[1..] + rest;
      DigitRunAppend(t[1..], rest);
    }
  }

  /** Separators over `t + rest`, where all of `t` are separators, run on into `rest`. */
  lemma {:induction false} SepRunPrefix(t: string, rest: string)
    requires forall k :: 0 <= k < |t| ==> IsSep(t[k])
    ensures SepRun(t + rest) == |t| + SepRun(rest)
  {
    if |t| == 0 {
      assert t + rest == rest;
    } else {
      assert (t + rest)[1..] == t[1..] + rest;
      SepRunPrefix(t[1..], rest);
    }
  }

  /** `nil`, `false` and `true` are read as such exactly when no symbol character follows them. */
  lemma WordsNeedABoundary(s: string, u: string -> string)
    requires |s| > 0
    ensures WordAt(s, "nil") ==> Lex(s, u) == Ok(Take(s, Scalar(Nil), 3))
    ensures WordAt(s, "false") ==> Lex(s, u) == Ok(Take(s, Scalar(Bool(false)), 5))
    ensures WordAt(s, "true") ==> Lex(s, u) == Ok(Take(s, Scalar(Bool(true)), 4))
  {
    if WordAt(s, "nil") {
      WordStart(s, "nil");
      PastBrackets(s, u);
      PastLiterals(s, u);
    } else if WordAt(s, "false") {
      WordStart(s, "false");
      PastBrackets(s, u);
      PastLiterals(s, u);
    } else if WordAt(s, "true") {
      WordStart(s, "true");
      PastBrackets(s, u);
      PastLiterals(s, u);
    }
  }

  /** Conversely, `nil`, `false` and `true` come only from those words. */
  lemma OnlyWordsAreLiterals(s: string, u: string -> string)
    requires |s| > 0
    ensures Lex(s, u).Ok? && Lex(s, u).value.token == Scalar(Nil) ==> WordAt(s, "nil")
    ensures Lex(s, u).Ok? && Lex(s, u).value.token == Scalar(Bool(false)) ==> WordAt(s, "false")
    ensures Lex(s, u).Ok? && Lex(s, u).value.token == Scalar(Bool(true)) ==> WordAt(s, "true")
  {
    var r := Lex(s, u);
    if r.Ok? && r.value.token.Scalar? && (r.value.token.v.Nil? || r.value.token.v.Bool?) {
      ScalarsPastBrackets(s, u);
      WordScalarsPastLiterals(s, u);
      WordScalarsAreWords(s);
    }
  }

  /** Brackets give no value: a value comes from `LexLiteral`. */
  lemma ScalarsPastBrackets(s: string, u: string -> string)
    requires |s| > 0 && Lex(s, u).Ok? && Lex(s, u).value.token.Scalar?
    ensures Lex(s, u) == LexLiteral(s, u)
  {
    BracketsOrLiteral(s, u);
  }

  /** `Lex` gives a bracket token, or what `LexLiteral` gives. */
  lemma BracketsOrLiteral(s: string, u: string -> string)
    requires |s| > 0
    ensures Lex(s, u) == LexLiteral(s, u) || (Lex(s, u).Ok? && (Lex(s, u).value.token.Open? || Lex(s, u).value.token.Close?))
  {
    if s[0] != '#' && s[0] != '(' && s[0] != ')' && s[0] != '[' && s[0] != ']' && s[0] != '{' && s[0] != '}' {
      PastBrackets(s, u);
    } else if s[0] == '#' && !(|s| > 1 && s[1] == '{') {
      assert Lex(s, u) == LexLiteral(s, u);
    }
  }

  /** Strings and characters are string values: nil or a boolean comes from `LexWord`. */
  lemma WordScalarsPastLiterals(s: string, u: string -> string)
    requires |s| > 0 && LexLiteral(s, u).Ok? && LexLiteral(s, u).value.token.Scalar?
    requires LexLiteral(s, u).value.token.v.Nil? || LexLiteral(s, u).value.token.v.Bool?
    ensures LexLiteral(s, u) == LexWord(s)
  {
  }

  /** `LexWord` gives nil or a boolean only for the matching word. */
  lemma WordScalarsAreWords(s: string)
    requires |s| > 0
    ensures LexWord(s).Ok? && LexWord(s).value.token == Scalar(Nil) ==> WordAt(s, "nil")
    ensures LexWord(s).Ok? && LexWord(s).value.token == Scalar(Bool(false)) ==> WordAt(s, "false")
    ensures LexWord(s).Ok? && LexWord(s).value.token == Scalar(Bool(true)) ==> WordAt(s, "true")
  {
  }

  /**
   * A name that starts with `nil` and goes on (`nilx`) is a symbol, and
   * the symbol takes all of it.
   */
  lemma NilPrefixIsASymbol(s: string, u: string -> string)
    requires |s| > 3 && s[..3] == "nil" && IsSymChar(s[3])
    ensures SymbolLen(s) > 3
    ensures Lex(s, u) == Ok(Take(s, Scalar(Str(s[..SymbolLen(s)])), SymbolLen(s)))
  {
    assert s[0] == s[..3][0] == 'n' && s[1] == s[..3][1] && s[2] == s[..3][2];
    PastBrackets(s, u);
    PastLiterals(s, u);
    assert !WordAt(s, "nil");
    if WordAt(s, "false") { WordStart(s, "false"); }
    if WordAt(s, "true") { WordStart(s, "true"); }
    assert LexWord(s) == LexNumber(s);
    PastNumbers(s);
    assert SymRun(s[1..]) >= 3 by {
      var t := s[1..];
      assert IsSymChar(t[0]) && IsSymChar(t[1]) && IsSymChar(t[2]);
      assert SymRun(t) == 1 + SymRun(t[1..]);
      assert SymRun(t[1..]) == 1 + SymRun(t[1..][1..]);
      assert t[1..][1..][0] == t[2];
    }
    assert NameLen(s) > 3;
  }

  /** A digit starts a number, never a symbol; a fraction or exponent makes it a float. */
  lemma DigitsAreNumbers(s: string, u: string -> string)
    requires |s| > 0 && IsDigit(s[0])
    ensures Lex(s, u).Ok?
    ensures Lex(s, u).value.token.Scalar?
    ensures FloatLen(s) > 0 ==> Lex(s, u).value.token.v == Float(s[..FloatLen(s)])
    ensures FloatLen(s) == 0 ==> Lex(s, u).value.token.v.Int?
  {
    PastBrackets(s, u);
    PastLiterals(s, u);
    PastWords(s);
    assert IntPartLen(s) > 0;
  }

  /**
   * A backslash and a run of letters and digits is a character literal:
   * it reads as the character `CharLiteral` gives, or raises its error.
   */
  lemma CharacterLiterals(s: string, u: string -> string)
    requires |s| > 1 && s[0] == '\\' && IsAlnum(s[1])
    ensures var n := AlnumRun(s[1..]);
            && 0 < n
            && (CharLiteral(s[1..1 + n], u).Ok? ==> Lex(s, u) == Ok(Take(s, Scalar(CharLiteral(s[1..1 + n], u).value), 1 + n)))
            && (CharLiteral(s[1..1 + n], u).Err? ==> Lex(s, u) == Err(InvalidCharLiteral(s[1..1 + n])))
  {
  }

  /** `\c` is no special case: it is an unknown character name like any other. */
  lemma BackslashCIsInvalid(u: string -> string)
    ensures CharLiteral("c", u) == Err(InvalidCharLiteral("c"))
  {
    assert !HasUHex("c");
  }

  /** The four named characters, and a `u` escape found anywhere in the name. */
  lemma NamedCharacters(u: string -> string)
    ensures CharLiteral("newline", u) == Ok(Str("\n"))
    ensures CharLiteral("return", u) == Ok(Str("\r"))
    ensures CharLiteral("space", u) == Ok(Str(" "))
    ensures CharLiteral("tab", u) == Ok(Str("\t"))
    ensures CharLiteral("xu00E9", u) == Ok(Str(u("%xu00E9")))
  {
    assert UHexAt("xu00E9", 1);
    assert "%" + "xu00E9" == "%xu00E9";
  }

  /** Text that starts with no bracket goes on to `LexLiteral`. */
  lemma PastBrackets(s: string, u: string -> string)
    requires |s| > 0 && s[0] != '#' && s[0] != '(' && s[0] != ')' && s[0] != '[' && s[0] != ']'
    requires s[0] != '{' && s[0] != '}'
    ensures Lex(s, u) == LexLiteral(s, u)
  {
  }

  /** Text that starts with no quote and no backslash goes on to `LexWord`. */
  lemma PastLiterals(s: string, u: string -> string)
    requires |s| > 0 && s[0] != '"' && s[0] != '\\'
    ensures LexLiteral(s, u) == LexWord(s)
  {
  }

  /** A word starts with the word's first character. */
  lemma WordStart(s: string, word: string)
    requires |word| > 0 && WordAt(s, word)
    ensures |s| > 0 && s[0] == word[0]
  {
    assert s[..|word|][0] == s[0];
  }

  /** Text that is none of the three words goes on to `LexNumber`. */
  lemma PastWords(s: string)
    requires |s| > 0 && s[0] != 'n' && s[0] != 'f' && s[0] != 't'
    ensures LexWord(s) == LexNumber(s)
  {
    if WordAt(s, "nil") { WordStart(s, "nil"); }
    if WordAt(s, "false") { WordStart(s, "false"); }
    if WordAt(s, "true") { WordStart(s, "true"); }
  }

  /** Text that starts with no digit and no sign is no number. */
  lemma PastNumbers(s: string)
    requires |s| > 0 && !IsDigit(s[0]) && s[0] != '+' && s[0] != '-'
    ensures LexNumber(s) == LexName(s)
  {
    assert IntPartLen(s) == 0;
  }

  /** Text that starts with neither a letter, a digit nor a sign is no word and no number. */
  lemma PastWordsAndNumbers(s: string)
    requires |s| > 0 && !IsAlnum(s[0]) && s[0] != '+' && s[0] != '-'
    ensures LexWord(s) == LexName(s)
  {
    PastWords(s);
    PastNumbers(s);
  }

  /** A keyword reads as its symbol without the colon. */
  lemma KeywordDropsColon(s: string, u: string -> string)
    requires |s| > 1 && s[0] == ':' && SymbolLen(s[1..]) > 0
    ensures Lex(s, u) == Ok(Take(s, Scalar(Str(s[1..1 + SymbolLen(s[1..])])), 1 + SymbolLen(s[1..])))
  {
    PastBrackets(s, u);
    PastLiterals(s, u);
    PastWordsAndNumbers(s);
    assert NameLen(s) == 0;
  }

  /** A line comment needs its line feed: one that runs to the end of the text is refused. */
  lemma CommentNeedsNewline(s: string, u: string -> string)
    requires |s| > 0 && s[0] == ';'
    ensures Lex(s, u).Ok? <==> NewlineFrom(s, 1).Some?
    ensures Lex(s, u).Ok? ==> Lex(s, u) == Ok(Take(s, Comment, NewlineFrom(s, 1).value + 1))
  {
    PastBrackets(s, u);
    PastLiterals(s, u);
    PastWordsAndNumbers(s);
    CommentIsAName(s);
  }

  lemma CommentIsAName(s: string)
    requires |s| > 0 && s[0] == ';'
    ensures LexName(s) == if NewlineFrom(s, 1).Some? then Ok(Take(s, Comment, NewlineFrom(s, 1).value + 1)) else Err(CannotParse(s))
  {
    assert NameLen(s) == 0;
  }

  /** A tag mark `#name` reads as a tag with that name. */
  lemma TagsAreTagMarks(s: string, u: string -> string)
    requires |s| > 1 && s[0] == '#' && TagNameLen(s[1..]) > 0
    ensures var t := TagNameLen(s[1..]);
            Lex(s, u) == Ok(Take(s, TagMark(s[1..1 + t]), 1 + t))
  {
    TagNameStart(s[1..]);
    assert s[1..][0] == s[1];
    HashPastBrackets(s, u);
    PastLiterals(s, u);
    PastWordsAndNumbers(s);
    TagIsAName(s);
  }

  /** A `#` that does not open a set goes on to `LexLiteral`. */
  lemma HashPastBrackets(s: string, u: string -> string)
    requires |s| > 1 && s[0] == '#' && s[1] != '{'
    ensures Lex(s, u) == LexLiteral(s, u)
  {
  }

  lemma TagIsAName(s: string)
    requires |s| > 1 && s[0] == '#' && TagNameLen(s[1..]) > 0
    ensures var t := TagNameLen(s[1..]);
            LexName(s) == Ok(Take(s, TagMark(s[1..1 + t]), 1 + t))
  {
    assert NameLen(s) == 0;
  }

  /** A tag name starts with a character that can start a name, or a sign or dot. */
  lemma TagNameStart(t: string)
    requires TagNameLen(t) > 0
    ensures |t| > 0 && (IsStartChar(t[0]) || IsSignOrDot(t[0]))
  {
  }

  /** No pattern of the reader matches at the head of `s`. */
  predicate NoPattern(s: string)
    requires |s| > 0
  {
    && s[0] !in "()[]{}" && !(|s| > 1 && s[0] == '#' && s[1] == '{')
    && !(s[0] == '"' && StringEnd(s, 1).Some?) && !(s[0] == '\\' && AlnumRun(s[1..]) > 0)
    && !WordAt(s, "nil") && !WordAt(s, "false") && !WordAt(s, "true")
    && FloatLen(s) == 0 && IntegerLen(s) == 0 && SymbolLen(s) == 0
    && !(s[0] == ':' && SymbolLen(s[1..]) > 0)
    && !(s[0] == ';' && NewlineFrom(s, 1).Some?)
    && !(s[0] == '#' && TagNameLen(s[1..]) > 0)
  }

  /** "cannot parse" is raised exactly when no pattern matches (edn.js:263-264). */
  lemma UnmatchedTextCannotParse(s: string, u: string -> string)
    requires |s| > 0
    ensures Lex(s, u) == Err(CannotParse(s)) <==> NoPattern(s)
  {
    NameRefuses(s);
    NumberRefuses(s);
    WordRefuses(s);
    LiteralRefuses(s, u);
    BracketsRefuse(s, u);
  }

  lemma BracketsRefuse(s: string, u: string -> string)
    requires |s| > 0
    ensures Lex(s, u) == Err(CannotParse(s)) <==>
              s[0] !in "()[]{}" && !(|s| > 1 && s[0] == '#' && s[1] == '{') && LexLiteral(s, u) == Err(CannotParse(s))
  {
  }

  lemma NameRefuses(s: string)
    requires |s| > 0
    ensures LexName(s) == Err(CannotParse(s)) <==>
              && SymbolLen(s) == 0 && !(s[0] == ':' && SymbolLen(s[1..]) > 0)
              && !(s[0] == ';' && NewlineFrom(s, 1).Some?) && !(s[0] == '#' && TagNameLen(s[1..]) > 0)
  {
  }

  lemma NumberRefuses(s: string)
    requires |s| > 0
    ensures LexNumber(s) == Err(CannotParse(s)) <==>
              FloatLen(s) == 0 && IntegerLen(s) == 0 && LexName(s) == Err(CannotParse(s))
  {
  }

  lemma WordRefuses(s: string)
    requires |s| > 0
    ensures LexWord(s) == Err(CannotParse(s)) <==>
              !WordAt(s, "nil") && !WordAt(s, "false") && !WordAt(s, "true") && LexNumber(s) == Err(CannotParse(s))
  {
  }

  lemma LiteralRefuses(s: string, u: string -> string)
    requires |s| > 0
    ensures LexLiteral(s, u) == Err(CannotParse(s)) <==>
              !(s[0] == '"' && StringEnd(s, 1).Some?) && !(s[0] == '\\' && AlnumRun(s[1..]) > 0)
              && LexWord(s) == Err(CannotParse(s))
  {
  }

  // ---------------------------------------------------------------------
  // Reading back what the writer prints
  // ---------------------------------------------------------------------

  /** The text after a printed number or string lets the token end there. */
  predicate Boundary(rest: string) {
    |rest| == 0 || IsSep(rest[0]) || rest[0] == ')' || rest[0] == ']' || rest[0] == '}'
  }

  /** Reading the digits of a natural number gives the number back. */
  lemma {:induction false} DigitsValueOfNatText(n: nat)
    ensures DigitsValue(NatText(n)) == n
  {
    var t := NatText(n);
    if n < 10 {
      assert t[..|t| - 1] == [];
    } else {
      DigitsValueOfNatText(n / 10);
      assert t[..|t| - 1] == NatText(n / 10);
    }
  }

  /** Reading the text of an integer gives the integer back. */
  lemma SignedValueOfIntText(i: int)
    ensures SignedValue(IntText(i)) == i
  {
    var t := IntText(i);
    if i < 0 {
      assert t[0] == '-' && t[1..] == NatText(-i);
      DigitsValueOfNatText(-i);
    } else {
      assert t == NatText(i) && '0' <= t[0] <= '9';
      DigitsValueOfNatText(i);
    }
  }

  /** Digits without a leading zero, and with a sign or without, followed by a boundary. */
  lemma IntPartOfDigits(sign: string, d: string, rest: string)
    requires sign == "" || sign == "-"
    requires |d| > 0 && (forall k :: 0 <= k < |d| ==> IsDigit(d[k])) && (|d| > 1 ==> d[0] != '0')
    requires Boundary(rest)
    ensures IntPartLen(sign + d + rest) == |sign| + |d|
  {
    var s := sign + d + rest;
    var g := |sign|;
    assert s[g] == d[0];
    assert SignLen(s) == g;
    if d[0] != '0' {
      assert s[g + 1..] == d[1..] + rest;
      DigitRunAppend(d[1..], rest);
    }
  }

  /** The integer part of a number's text followed by a boundary is all of that text. */
  lemma IntPartOfIntText(i: int, rest: string)
    requires Boundary(rest)
    ensures IntPartLen(IntText(i) + rest) == |IntText(i)|
  {
    if i < 0 {
      IntPartOfDigits("-", NatText(-i), rest);
    } else {
      IntPartOfDigits("", NatText(i), rest);
      assert "" + NatText(i) == NatText(i);
    }
  }

  /** A printed integer followed by a boundary is an integer literal and not a float. */
  lemma IntTextIsInteger(i: int, rest: string)
    requires Boundary(rest)
    ensures FloatLen(IntText(i) + rest) == 0
    ensures IntegerLen(IntText(i) + rest) == IntPartLen(IntText(i) + rest) == |IntText(i)|
  {
    IntPartOfIntText(i, rest);
    assert (IntText(i) + rest)[|IntText(i)|..] == rest;
  }

  /** Text that starts like a number and holds an integer but no float is an integer token. */
  lemma LexInteger(s: string, u: string -> string, i: int, n: nat)
    requires |s| > 0 && (s[0] == '-' || IsDigit(s[0]))
    requires FloatLen(s) == 0 && IntegerLen(s) > 0
    requires i == SignedValue(s[..IntPartLen(s)]) && n == IntegerLen(s) + SepRun(s[IntegerLen(s)..])
    ensures Lex(s, u) == Ok(Lexeme(Scalar(Int(i)), n))
  {
    LexNumberFirst(s, u);
    TakeLen(s, Scalar(Int(i)), IntegerLen(s), n);
  }

  /** Text that starts like a number goes past the brackets, literals and words. */
  lemma LexNumberFirst(s: string, u: string -> string)
    requires |s| > 0 && (s[0] == '-' || IsDigit(s[0]))
    ensures Lex(s, u) == LexNumber(s)
  {
    PastBrackets(s, u);
    PastLiterals(s, u);
    PastWords(s);
  }

  /** The lexeme `Take` builds, its length named. */
  lemma TakeLen(s: string, token: Token, k: nat, n: nat)
    requires 0 < k <= |s| && n == k + SepRun(s[k..])
    ensures Take(s, token, k) == Lexeme(token, n)
  {
  }

  /** What the lexer looks at in a printed integer followed by a boundary. */
  lemma IntTextFacts(i: int, rest: string)
    requires Boundary(rest)
    ensures var s := IntText(i) + rest;
            && (s[0] == '-' || IsDigit(s[0]))
            && FloatLen(s) == 0 && IntegerLen(s) == |IntText(i)| && IntPartLen(s) == |IntText(i)|
            && s[..|IntText(i)|] == IntText(i) && s[|IntText(i)|..] == rest
  {
    var s := IntText(i) + rest;
    if i >= 0 {
      assert s[0] == NatText(i)[0];
    }
    IntTextIsInteger(i, rest);
    assert s[..|IntText(i)|] == IntText(i);
  }

  /**
   * A printed integer followed by a boundary reads back as that integer;
   * `n` is the length of its text and the separators after it.
   */
  lemma LexIntText(i: int, rest: string, u: string -> string, n: nat)
    requires Boundary(rest) && n == |IntText(i)| + SepRun(rest)
    ensures Lex(IntText(i) + rest, u) == Ok(Lexeme(Scalar(Int(i)), n))
  {
    IntTextFacts(i, rest);
    SignedValueOfIntText(i);
    LexInteger(IntText(i) + rest, u, i, n);
  }

  /** The closing quote of a string body without quotes or backslashes. */
  lemma {:induction false} StringEndOfPlain(c: string, rest: string, i: nat)
    requires '"' !in c && '\\' !in c
    requires 1 <= i <= |c| + 1
    ensures StringEnd("\"" + c + "\"" + rest, i) == Some(|c| + 1)
    decreases |c| + 1 - i
  {
    var s := "\"" + c + "\"" + rest;
    if i <= |c| {
      assert s[i] == c[i - 1];
      StringEndOfPlain(c, rest, i + 1);
    } else {
      assert s[i] == '"';
    }
  }

  /** Text that starts with a closed string literal is a string token. */
  lemma LexString(s: string, u: string -> string, e: nat, n: nat)
    requires |s| > 0 && s[0] == '"' && StringEnd(s, 1) == Some(e)
    requires n == e + 1 + SepRun(s[e + 1..])
    ensures Lex(s, u) == Ok(Lexeme(Scalar(Str(s[1..e])), n))
  {
    PastBrackets(s, u);
    TakeLen(s, Scalar(Str(s[1..e])), e + 1, n);
  }

  /** What the lexer looks at in a printed string without quotes or backslashes. */
  lemma PlainStringFacts(c: string, rest: string)
    requires '"' !in c && '\\' !in c
    ensures var s := "\"" + c + "\"" + rest;
            && s[0] == '"' && StringEnd(s, 1) == Some(|c| + 1)
            && s[1..|c| + 1] == c && s[|c| + 2..] == rest
  {
    var s := "\"" + c + "\"" + rest;
    StringEndOfPlain(c, rest, 1);
    assert s[1..|c| + 1] == c;
    assert s[|c| + 2..] == rest;
  }

  /**
   * A printed string without quotes or backslashes reads back as that
   * string; `n` is the length of its text and the separators after it.
   */
  lemma LexPlainString(c: string, rest: string, u: string -> string, n: nat)
    requires '"' !in c && '\\' !in c && n == |c| + 2 + SepRun(rest)
    ensures Lex("\"" + c + "\"" + rest, u) == Ok(Lexeme(Scalar(Str(c)), n))
  {
    PlainStringFacts(c, rest);
    LexString("\"" + c + "\"" + rest, u, |c| + 1, n);
  }
}
