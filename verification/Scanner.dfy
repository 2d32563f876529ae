/**
 The token language of src/fidi_scanner.ll as a function of the text: start conditions,
 longest match, and the extraction of a nested request as one BLOB.
 */
module Scanner {
  import opened Lexical

  datatype Token =
    | OBRACKET | CBRACKET | EQUALS | COMMA | DASH | ARROW
    | SOURCE | REPEAT | SEQUENCE
    | IDENT(name: string)
    | STRING(text: string)
    | BLOB(blob: string)
    | NUMBER(value: nat)
    | Invalid(c: char)  // passed up to the parser, which has no rule for it

  datatype Mode = Initial | EdgeDef | EdgeAttr

  /** What one match consumes, the token it returns (if any) and the start condition it leaves. */
  datatype Match = Match(token: Option<Token>, length: nat, mode: Mode)

  /** Index of the first "*" + "/" in `s`. */
  function CloseAt(s: string): (r: Option<nat>)
    ensures r.Some? ==> r.value + 2 <= |s| && s[r.value] == '*' && s[r.value + 1] == '/'
    ensures r.Some? ==> forall i | 0 <= i < r.value :: !(s[i] == '*' && s[i + 1] == '/')
    ensures r.None? ==> forall i | 0 <= i < |s| - 1 :: !(s[i] == '*' && s[i + 1] == '/')
  {
    if |s| < 2 then None
    else if s[0] == '*' && s[1] == '/' then Some(0)
    else match CloseAt(s[1..])
         case None => None
         case Some(i) => Some(i + 1)
  }

  /** Length of the shortest prefix of `s` that brings the bracket depth from `depth` to zero. */
  function BlobLength(s: string, depth: nat): (r: Option<nat>)
    requires depth > 0
    ensures r.Some? ==> 0 < r.value <= |s|
  {
    if s == "" then None
    else if s[0] == ']' && depth == 1 then Some(1)
    else
      match BlobLength(s[1..], NextDepth(s[0], depth))
      case None => None
      case Some(n) => Some(n + 1)
  }

  function NextDepth(c: char, depth: int): int {
    if c == '[' then depth + 1 else if c == ']' then depth - 1 else depth
  }

  function Keyword(m: Mode, word: string): Token {
    if m == Initial && word == "source" then SOURCE
    else if m == EdgeDef && word == "sequence" then SEQUENCE
    else if m == EdgeDef && word == "repeat" then REPEAT
    else IDENT(word)
  }

  /**
   The match flex makes at the head of `s`.  Strings and blobs are passed on as C strings.
   */
  function Next(m: Mode, s: string): (r: Match)
    requires m != EdgeAttr && s != ""
    ensures 0 < r.length <= |s| && r.mode != EdgeAttr
  {
    var c := s[0];
    if IsBlank(c) then Match(None, 1, m)
    else if c == '=' then Match(Some(EQUALS), 1, m)
    else if c == ',' then Match(Some(COMMA), 1, m)
    else if c == ']' then Match(Some(CBRACKET), 1, m)
    else if IsDigit(c) then
      var n := Span(IsDigit, s);
      Match(Some(NUMBER(NumeralValue(s[..n]))), n, m)
    else if IsLetter(c) then
      var n := Span(IsWordChar, s);
      Match(Some(Keyword(m, s[..n])), n, m)
    else if c == '/' && |s| > 1 && s[1] == '*' then
      match CloseAt(s[2..])
      case Some(i) => Match(None, i + 4, m)
      case None => Match(Some(Invalid(c)), 2, m)
    else if m == EdgeDef then
      if c == '[' then
        match BlobLength(s[1..], 1)
        case Some(n) => Match(Some(BLOB(CString(s[1..n + 1]))), n + 1, Initial)
        case None => Match(None, |s|, m)
      else Match(None, 1, m)  // flex's default rule: echo and go on
    else if c == '[' then Match(Some(OBRACKET), 1, m)
    else if c == '-' then Match(Some(DASH), 1, m)
    else if c == '>' then Match(Some(ARROW), 1, EdgeDef)
    else if c == '"' then
      match IndexOf(s[1..], '"')
      case Some(i) => Match(Some(STRING(CString(s[..i + 2]))), i + 2, m)
      case None => Match(Some(Invalid(c)), 1, m)
    else Match(Some(Invalid(c)), 1, m)
  }

  /** All tokens of `s` up to the end of the input. */
  function Scan(m: Mode, s: string): seq<Token>
    requires m != EdgeAttr
    decreases |s|
  {
    if s == "" then []
    else
      var r := Next(m, s);
      var rest := Scan(r.mode, s[r.length..]);
      if r.token.Some? then [r.token.value] + rest else rest
  }
}
